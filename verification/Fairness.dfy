/**
 Fair shares of the pending slots: what the capacity cut of promoteExecutables is meant to
 compute, on the numbers of transactions alone.
 */
module Fairness {
  import opened Sequences
  import opened Transactions

  type Counts = map<Address, nat>

  ghost function Total(m: Counts): nat
    decreases |m|
  {
    if m == map[] then 0 else var a :| a in m; SizeOne(m, a); m[a] + Total(m - {a})
  }

  lemma SizeOne(m: Counts, a: Address)
    requires a in m
    ensures |m - {a}| == |m| - 1
  {
  }

  lemma {:induction false} TotalWithout(m: Counts, a: Address)
    requires a in m
    ensures Total(m) == m[a] + Total(m - {a})
    decreases |m|
  {
    var b :| b in m && Total(m) == m[b] + Total(m - {b});
    if b != a {
      SizeOne(m, b);
      TotalWithout(m - {b}, a);
      SizeOne(m, a);
      TotalWithout(m - {a}, b);
      assert m - {b} - {a} == m - {a} - {b};
    }
  }

  lemma TotalUpdate(m: Counts, a: Address, x: nat)
    requires a in m
    ensures Total(m[a := x]) == Total(m) - m[a] + x
  {
    TotalWithout(m, a);
    TotalWithout(m[a := x], a);
    assert m[a := x] - {a} == m - {a};
  }

  lemma TotalPositive(m: Counts, a: Address)
    requires a in m
    ensures m[a] <= Total(m)
  {
  }

  lemma {:induction false} TotalMono(m: Counts, m': Counts)
    requires m.Keys == m'.Keys && forall a :: a in m ==> m[a] <= m'[a]
    ensures Total(m) <= Total(m')
    decreases |m|
  {
    if m == map[] {
      assert m' == map[];
    } else {
      var a :| a in m;
      TotalWithout(m, a);
      TotalWithout(m', a);
      SizeOne(m, a);
      TotalMono(m - {a}, m' - {a});
    }
  }

  function CutSize(size: nat, local: bool, level: nat): nat {
    if local || size <= level then size else level
  }

  /** Remote accounts limited to `level`, local ones untouched. */
  ghost function CutSizes(k: Counts, locals: set<Address>, level: nat): Counts {
    map a | a in k :: CutSize(k[a], a in locals, level)
  }

  /**
   `level` is the fair share: the largest level that fits the slots, but never below the
   slots guaranteed to every account.
   */
  ghost predicate FairLevel(k: Counts, locals: set<Address>, slots: nat, guaranteed: nat, level: nat) {
    && guaranteed <= level
    && Total(CutSizes(k, locals, level + 1)) > slots
    && (Total(CutSizes(k, locals, level)) <= slots || level == guaranteed)
  }

  /** The fair share is unique: any two fair levels cut the accounts alike. */
  lemma FairLevelUnique(k: Counts, locals: set<Address>, slots: nat, guaranteed: nat, x: nat, y: nat)
    requires FairLevel(k, locals, slots, guaranteed, x) && FairLevel(k, locals, slots, guaranteed, y)
    ensures x == y
  {
    hide Total, CutSizes;
    if x < y {
      CutMono(k, locals, x + 1, y);
    } else if y < x {
      CutMono(k, locals, y + 1, x);
    }
  }

  lemma CutMono(k: Counts, locals: set<Address>, x: nat, y: nat)
    requires x <= y
    ensures Total(CutSizes(k, locals, x)) <= Total(CutSizes(k, locals, y))
  {
    TotalMono(CutSizes(k, locals, x), CutSizes(k, locals, y));
  }

  /**
   Max-min fairness: an allocation that fits the slots and keeps the local accounts whole must
   leave some remote account with no more than the fair share while it has more to offer.
   */
  lemma NobodyCanGainForFree(k: Counts, locals: set<Address>, slots: nat, guaranteed: nat, level: nat, other: Counts)
    requires FairLevel(k, locals, slots, guaranteed, level)
    requires other.Keys == k.Keys && Total(other) <= slots
    requires forall a :: a in k && a in locals ==> other[a] == k[a]
    ensures exists a :: a in k && a !in locals && other[a] < CutSize(k[a], false, level + 1)
  {
    if forall a :: a in k && a !in locals ==> other[a] >= CutSize(k[a], false, level + 1) {
      TotalMono(CutSizes(k, locals, level + 1), other);
      assert false;
    }
  }

  /** The accounts that the cut reaches. */
  ghost function CutAccounts(k: Counts, locals: set<Address>, level: nat): set<Address> {
    set a | a in k && a !in locals && k[a] > level
  }

  /** The cut overshoots the limit by fewer transactions than it has offenders. */
  lemma OvershootIsSmall(k: Counts, locals: set<Address>, slots: nat, guaranteed: nat, level: nat)
    requires FairLevel(k, locals, slots, guaranteed, level)
    ensures slots < Total(CutSizes(k, locals, level)) + |CutAccounts(k, locals, level)|
  {
    OneLevel(k, locals, level);
  }

  lemma {:induction false} OneLevel(k: Counts, locals: set<Address>, level: nat)
    ensures Total(CutSizes(k, locals, level + 1)) == Total(CutSizes(k, locals, level)) + |CutAccounts(k, locals, level)|
    decreases |k|
  {
    hide Total, CutSizes, CutAccounts;
    if k == map[] {
      CutNone(k, locals, level);
      CutNone(k, locals, level + 1);
    } else {
      var a :| a in k;
      var k' := k - {a};
      SizeOne(k, a);
      OneLevel(k', locals, level);
      CutWithout(k, locals, level, a);
      CutWithout(k, locals, level + 1, a);
      CutAccountsWithout(k, locals, level, a);
    }
  }

  lemma CutAccountsWithout(k: Counts, locals: set<Address>, level: nat, a: Address)
    requires a in k
    ensures |CutAccounts(k, locals, level)| ==
            |CutAccounts(k - {a}, locals, level)| + if a !in locals && k[a] > level then 1 else 0
  {
    if a !in locals && k[a] > level {
      assert CutAccounts(k, locals, level) == CutAccounts(k - {a}, locals, level) + {a};
    } else {
      assert CutAccounts(k, locals, level) == CutAccounts(k - {a}, locals, level);
    }
  }

  lemma CutNone(k: Counts, locals: set<Address>, level: nat)
    requires k == map[]
    ensures CutSizes(k, locals, level) == map[] && CutAccounts(k, locals, level) == {}
  {
  }

  lemma CutWithout(k: Counts, locals: set<Address>, level: nat, a: Address)
    requires a in k
    ensures Total(CutSizes(k, locals, level)) ==
            CutSize(k[a], a in locals, level) + Total(CutSizes(k - {a}, locals, level))
  {
    hide Total;
    TotalWithout(CutSizes(k, locals, level), a);
    assert CutSizes(k, locals, level) - {a} == CutSizes(k - {a}, locals, level);
  }

  /** After the cut every remote account is within its guarantee, or the total fits. */
  lemma CutFitsOrGuaranteed(k: Counts, locals: set<Address>, slots: nat, guaranteed: nat, level: nat)
    requires FairLevel(k, locals, slots, guaranteed, level)
    ensures
      var c := CutSizes(k, locals, level);
      && (Total(c) <= slots || forall a :: a in c && a !in locals ==> c[a] <= guaranteed)
      && (forall a :: a in c && a in locals ==> c[a] == k[a])
      && (forall a :: a in c && c[a] < k[a] ==> c[a] >= guaranteed)
      && (forall a, b :: a in c && b in c && c[a] < k[a] && b !in locals ==> c[b] <= c[a])
  {
  }

  // ----- the stages of the cut -----

  ghost predicate Levelled(k0: Counts, k: Counts, locals: set<Address>, level: nat) {
    k.Keys == k0.Keys && forall a :: a in k0 ==> k[a] == CutSize(k0[a], a in locals, level)
  }

  lemma LevelledTotal(k0: Counts, k: Counts, locals: set<Address>, level: nat)
    requires Levelled(k0, k, locals, level)
    ensures k == CutSizes(k0, locals, level)
  {
  }

  /** One transaction fewer for every account of `offs`. */
  ghost predicate Dec(k: Counts, k': Counts, offs: seq<Address>) {
    && k'.Keys == k.Keys
    && forall a :: a in k ==> k[a] == k'[a] + if a in offs then 1 else 0
  }

  lemma DecNone(k: Counts)
    ensures Dec(k, k, [])
  {
  }

  lemma DecOne(k: Counts, k': Counts, offs: seq<Address>, i: nat)
    requires Distinct(offs) && i < |offs| && Dec(k, k', offs[..i]) && offs[i] in k && k[offs[i]] > 0
    ensures offs[i] in k' && k'[offs[i]] == k[offs[i]] && Dec(k, k'[offs[i] := k[offs[i]] - 1], offs[..i + 1])
  {
  }

  /**
   Half way through punishing the offenders, largest first: all but the last one popped are
   level, the last one is not above them and the rest of the spammers is not above the last.
   */
  ghost predicate Offence(k0: Counts, k: Counts, locals: set<Address>, guaranteed: nat,
                          offenders: seq<Address>, spammers: Counts, level: nat) {
    && Levelled(k0, k, locals, level) && Distinct(offenders)
    && (forall a :: a in offenders ==> a in k0 && a !in locals && k0[a] > guaranteed && a !in spammers)
    && (forall a :: a in spammers ==> a in k0 && a !in locals && k0[a] > guaranteed && spammers[a] == k0[a])
    && (forall a :: a in k0 && a !in locals && k0[a] > guaranteed ==> a in offenders || a in spammers)
    && (offenders == [] ==> forall a :: a in k0 && a !in locals ==> k0[a] <= level)
    && (offenders != [] ==> Popped(k0, guaranteed, offenders, spammers, level))
  }

  ghost predicate Popped(k0: Counts, guaranteed: nat, offenders: seq<Address>, spammers: Counts, level: nat) {
    && (forall i :: 0 <= i < |offenders| ==> offenders[i] in k0)
    && offenders != []
    && (var t := k0[offenders[|offenders| - 1]];
        && guaranteed < t <= level
        && (forall i :: 0 <= i < |offenders| - 1 ==> level <= k0[offenders[i]])
        && (forall a :: a in spammers ==> spammers[a] <= t))
  }

  ghost predicate Spammers(k: Counts, locals: set<Address>, guaranteed: nat, spammers: Counts) {
    forall a ::
      && (a in spammers <==> a in k && a !in locals && k[a] > guaranteed)
      && (a in spammers ==> spammers[a] == k[a])
  }

  lemma OffenceStart(k0: Counts, locals: set<Address>, guaranteed: nat, spammers: Counts)
    requires Spammers(k0, locals, guaranteed, spammers)
    ensures Offence(k0, k0, locals, guaranteed, [], spammers, Total(k0) + guaranteed)
  {
    hide Total;
    forall a | a in k0 ensures k0[a] <= Total(k0) + guaranteed {
      TotalWithout(k0, a);
    }
  }

  lemma OffencePop(k0: Counts, k: Counts, locals: set<Address>, guaranteed: nat, offenders: seq<Address>,
                   spammers: Counts, level: nat, a: Address)
    requires Offence(k0, k, locals, guaranteed, offenders, spammers, level)
    requires offenders != [] ==> offenders[|offenders| - 1] in k0 && k0[offenders[|offenders| - 1]] == level
    requires a in spammers && forall b :: b in spammers ==> spammers[b] <= spammers[a]
    ensures Offence(k0, k, locals, guaranteed, offenders + [a], spammers - {a},
                    if offenders == [] then k0[a] else level)
    ensures offenders == [] ==> Levelled(k0, k, locals, k0[a]) && forall b :: b in k0 && b !in locals ==> k0[b] <= k0[a]
  {
    var offs, level' := offenders + [a], if offenders == [] then k0[a] else level;
    forall b | b in offs ensures b in k0 && b !in locals && k0[b] > guaranteed && b !in spammers - {a} {
      assert b in offenders || b == a;
    }
    forall b | b in k0 && b !in locals && k0[b] > guaranteed ensures b in offs || b in spammers - {a} {
      if b in offenders { var i :| 0 <= i < |offenders| && offenders[i] == b; assert offs[i] == b; }
      else if b == a { assert offs[|offenders|] == a; }
    }
    assert Popped(k0, guaranteed, offs, spammers - {a}, level') by {
      forall i | 0 <= i < |offs| ensures offs[i] in k0 {
        assert offs[i] in offs;
      }
    }
    if offenders == [] {
      forall b | b in k0 && b !in locals ensures k0[b] <= k0[a] {
        assert k0[b] > guaranteed ==> b in spammers;
      }
    }
  }

  /** While the last offender is below the level, the others are exactly the accounts at the level. */
  lemma OffenceRound(k0: Counts, k: Counts, k': Counts, locals: set<Address>, guaranteed: nat,
                     offenders: seq<Address>, spammers: Counts, level: nat)
    requires Offence(k0, k, locals, guaranteed, offenders, spammers, level) && |offenders| > 1
    requires offenders[|offenders| - 1] in k0 && k0[offenders[|offenders| - 1]] < level
    requires Dec(k, k', offenders[..|offenders| - 1])
    ensures Offence(k0, k', locals, guaranteed, offenders, spammers, level - 1)
  {
  }

  /** Once every spammer is an offender and all are level, they are cut together. */
  ghost predicate LastStage(k0: Counts, k: Counts, locals: set<Address>, guaranteed: nat, offenders: seq<Address>,
                            level: nat) {
    && Levelled(k0, k, locals, level) && Distinct(offenders) && guaranteed <= level
    && (forall a :: a in offenders <==> a in k0 && a !in locals && k0[a] > guaranteed)
    && (forall a :: a in offenders ==> level <= k0[a])
  }

  lemma LastStageStart(k0: Counts, k: Counts, locals: set<Address>, guaranteed: nat, offenders: seq<Address>,
                       spammers: Counts, level: nat)
    requires Offence(k0, k, locals, guaranteed, offenders, spammers, level) && spammers == map[] && offenders != []
    requires offenders[|offenders| - 1] in k0 && k0[offenders[|offenders| - 1]] == level
    ensures LastStage(k0, k, locals, guaranteed, offenders, level)
  {
  }

  lemma LastStageRound(k0: Counts, k: Counts, k': Counts, locals: set<Address>, guaranteed: nat,
                       offenders: seq<Address>, level: nat)
    requires LastStage(k0, k, locals, guaranteed, offenders, level) && guaranteed < level && Dec(k, k', offenders)
    ensures LastStage(k0, k', locals, guaranteed, offenders, level - 1)
  {
  }

  /** Before the level falls further the total is still over the limit. */
  ghost predicate OverAt(k0: Counts, locals: set<Address>, slots: nat, level: nat) {
    Total(CutSizes(k0, locals, level + 1)) > slots
  }

  lemma OverNow(k0: Counts, k: Counts, locals: set<Address>, slots: nat, level: nat)
    requires Levelled(k0, k, locals, level) && Total(k) > slots && level > 0
    ensures OverAt(k0, locals, slots, level - 1)
  {
    LevelledTotal(k0, k, locals, level);
  }

  /** At a level that no remote account exceeds, the next level is no different. */
  lemma OverTop(k0: Counts, k: Counts, locals: set<Address>, slots: nat, level: nat)
    requires Levelled(k0, k, locals, level) && Total(k) > slots
    requires forall a :: a in k0 && a !in locals ==> k0[a] <= level
    ensures OverAt(k0, locals, slots, level)
  {
    assert k == CutSizes(k0, locals, level + 1);
  }

  lemma OffenceSizes(k0: Counts, k: Counts, locals: set<Address>, guaranteed: nat,
                     offenders: seq<Address>, spammers: Counts, level: nat)
    requires Offence(k0, k, locals, guaranteed, offenders, spammers, level) && offenders != []
    ensures forall i :: 0 <= i < |offenders| ==> offenders[i] in k && offenders[i] in k0
    ensures forall i :: 0 <= i < |offenders| - 1 ==> k[offenders[i]] == level
    ensures k[offenders[|offenders| - 1]] == k0[offenders[|offenders| - 1]] <= level && guaranteed < level
    ensures guaranteed < k0[offenders[|offenders| - 1]]
  {
  }

  lemma LastStageSizes(k0: Counts, k: Counts, locals: set<Address>, guaranteed: nat, offenders: seq<Address>,
                       level: nat)
    requires LastStage(k0, k, locals, guaranteed, offenders, level)
    ensures Levelled(k0, k, locals, level) && guaranteed <= level && Distinct(offenders)
    ensures forall i :: 0 <= i < |offenders| ==>
              offenders[i] in k && offenders[i] !in locals && k[offenders[i]] == level
  {
  }

  /** Without offenders nobody exceeds the guarantee, which is then the fair level. */
  lemma NoOffenders(k0: Counts, k: Counts, locals: set<Address>, guaranteed: nat, spammers: Counts, level: nat,
                    slots: nat)
    requires Offence(k0, k, locals, guaranteed, [], spammers, level) && spammers == map[] && Total(k) > slots
    ensures FairLevel(k0, locals, slots, guaranteed, guaranteed) && Levelled(k0, k, locals, guaranteed)
  {
    assert forall a :: a in k0 && a !in locals ==> k0[a] <= guaranteed || a in spammers;
    OverTop(k0, k, locals, slots, guaranteed);
  }

  lemma FairNow(k0: Counts, k: Counts, locals: set<Address>, slots: nat, guaranteed: nat, level: nat)
    requires Levelled(k0, k, locals, level) && OverAt(k0, locals, slots, level) && guaranteed <= level
    requires Total(k) <= slots || level == guaranteed
    ensures FairLevel(k0, locals, slots, guaranteed, level)
  {
    LevelledTotal(k0, k, locals, level);
  }

  lemma OffenceLevelled(k0: Counts, k: Counts, locals: set<Address>, guaranteed: nat,
                        offenders: seq<Address>, spammers: Counts, level: nat)
    requires Offence(k0, k, locals, guaranteed, offenders, spammers, level)
    ensures Levelled(k0, k, locals, level) && Distinct(offenders)
  {
  }

  /** A round on all offenders but the last may start. */
  lemma RoundReady(k0: Counts, k: Counts, locals: set<Address>, guaranteed: nat,
                   offenders: seq<Address>, spammers: Counts, level: nat)
    requires Offence(k0, k, locals, guaranteed, offenders, spammers, level) && |offenders| > 1
    ensures
      var offs := offenders[..|offenders| - 1];
      && Levelled(k0, k, locals, level) && Distinct(offs)
      && forall i :: 0 <= i < |offs| ==> offs[i] in k && offs[i] !in locals && k[offs[i]] == level
  {
  }

  lemma {:induction false} HasLargest(m: Counts)
    requires m != map[]
    ensures exists a :: a in m && forall b :: b in m ==> m[b] <= m[a]
    decreases |m|
  {
    var x :| x in m;
    var r := m - {x};
    if r == map[] {
      assert forall b :: b in m ==> b == x || b in r;
      assert x in m && forall b :: b in m ==> m[b] <= m[x];
    } else {
      SizeOne(m, x);
      HasLargest(r);
      var y :| y in r && forall b :: b in r ==> r[b] <= r[y];
      var a := if m[x] > m[y] then x else y;
      assert forall b :: b in m ==> b == x || b in r;
      assert a in m && forall b :: b in m ==> m[b] <= m[a];
    }
  }

  /** Where the level starts once an offender is popped. */
  ghost function PoppedLevel(k0: Counts, offenders: seq<Address>, level: nat, a: Address): nat {
    if offenders == [] && a in k0 then k0[a] else level
  }

  /** Popping the largest spammer while the total is over the limit. */
  lemma PopStage(k0: Counts, k: Counts, locals: set<Address>, guaranteed: nat, slots: nat, offenders: seq<Address>,
                 spammers: Counts, level: nat, a: Address)
    requires Offence(k0, k, locals, guaranteed, offenders, spammers, level) && Total(k) > slots
    requires offenders != [] ==> offenders[|offenders| - 1] in k0 && k0[offenders[|offenders| - 1]] == level
    requires offenders != [] ==> OverAt(k0, locals, slots, level)
    requires a in spammers && forall b :: b in spammers ==> spammers[b] <= spammers[a]
    ensures
      var level' := PoppedLevel(k0, offenders, level, a);
      && Offence(k0, k, locals, guaranteed, offenders + [a], spammers - {a}, level')
      && OverAt(k0, locals, slots, level') && guaranteed <= level' && a in k0
      && (offenders == [] ==> k0[a] == level') && |spammers - {a}| < |spammers|
  {
    hide Total, Levelled, OverAt;
    SizeOne(spammers, a);
    OffencePop(k0, k, locals, guaranteed, offenders, spammers, level, a);
    if offenders == [] {
      OverTop(k0, k, locals, slots, k0[a]);
    } else {
      OffenceSizes(k0, k, locals, guaranteed, offenders, spammers, level);
    }
  }

  /** `prque.Pop`: take out an account with the greatest priority. */
  method PopLargest(m: Counts) returns (a: Address, rest: Counts)
    requires m != map[]
    ensures a in m && rest == m - {a} && |rest| < |m| && forall b :: b in m ==> m[b] <= m[a]
  {
    HasLargest(m);
    a :| a in m && forall b :: b in m ==> m[b] <= m[a];
    SizeOne(m, a);
    rest := m - {a};
  }
}
