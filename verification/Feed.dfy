/**
 event/feed.go: one value goes to every subscribed channel. The prefix `cases` of `sendCases`
 holds the channels still to be served; a served one is swapped behind it.
 */
module Feed {

  type Channel = nat

  /** The case at index 0 receives unsubscriptions. */
  const REMOVE_SUB: Channel := 0
  const FIRST_SUB_SEND_CASE := 1

  /** `s` with the channels at `i` and at the end of the prefix of length `n` exchanged. */
  function Swapped(s: seq<Channel>, i: nat, n: nat): (t: seq<Channel>)
    requires i < n <= |s|
    ensures |t| == |s|
  {
    s[i := s[n - 1]][n - 1 := s[i]]
  }

  lemma MultisetSwap(s: seq<Channel>, i: nat, n: nat)
    requires FIRST_SUB_SEND_CASE <= i < n <= |s|
    ensures Swapped(s, i, n)[0] == s[0]
    ensures multiset(Swapped(s, i, n)[FIRST_SUB_SEND_CASE..]) == multiset(s[FIRST_SUB_SEND_CASE..])
    ensures multiset(Swapped(s, i, n)[n - 1..]) == multiset(s[n..]) + multiset{s[i]}
  {
    var t := Swapped(s, i, n);
    assert t[n - 1..] == [s[i]] + s[n..];
    assert t[1..] == s[1..][i - 1 := s[n - 1]][n - 2 := s[i]];
  }

  lemma MultisetDelete(s: seq<Channel>, k: nat, index: nat)
    requires k <= index < |s|
    ensures multiset((s[..index] + s[index + 1..])[k..]) + multiset{s[index]} == multiset(s[k..])
  {
    assert s[k..] == s[k..index] + [s[index]] + s[index + 1..];
    assert (s[..index] + s[index + 1..])[k..] == s[k..index] + s[index + 1..];
  }

  /**
   A value is on its way: `cases` is the prefix of length `n`. What has been delivered is what
   lies behind the prefix and some of what has been removed.
   */
  ghost predicate Sending(cs: seq<Channel>, n: int, all: multiset<Channel>, delivered: multiset<Channel>,
                          removed: multiset<Channel>) {
    && FIRST_SUB_SEND_CASE <= n <= |cs| && cs[0] == REMOVE_SUB && REMOVE_SUB !in cs[FIRST_SUB_SEND_CASE..]
    && multiset(cs[FIRST_SUB_SEND_CASE..]) + removed == all
    && multiset(cs[n..]) <= delivered && delivered - multiset(cs[n..]) <= removed
  }

  lemma SendStart(cs: seq<Channel>, all: multiset<Channel>)
    requires cs != [] && cs[0] == REMOVE_SUB && REMOVE_SUB !in cs[FIRST_SUB_SEND_CASE..]
    requires multiset(cs[FIRST_SUB_SEND_CASE..]) == all
    ensures Sending(cs, |cs|, all, multiset{}, multiset{})
  {
  }

  lemma SendEnd(cs: seq<Channel>, n: nat, all: multiset<Channel>, delivered: multiset<Channel>,
                removed: multiset<Channel>)
    requires Sending(cs, n, all, delivered, removed)
    ensures FIRST_SUB_SEND_CASE <= n <= |cs| && cs[0] == REMOVE_SUB && REMOVE_SUB !in cs[FIRST_SUB_SEND_CASE..]
    ensures multiset(cs[FIRST_SUB_SEND_CASE..]) + removed == all
    ensures n == FIRST_SUB_SEND_CASE ==>
              && multiset(cs[FIRST_SUB_SEND_CASE..]) <= delivered
              && delivered - multiset(cs[FIRST_SUB_SEND_CASE..]) <= removed
    ensures n > FIRST_SUB_SEND_CASE ==> cs[1] in cs && cs[1] != REMOVE_SUB
  {
  }

  lemma Served(cs: seq<Channel>, n: nat, i: nat, all: multiset<Channel>, delivered: multiset<Channel>,
               removed: multiset<Channel>)
    requires Sending(cs, n, all, delivered, removed) && FIRST_SUB_SEND_CASE <= i < n <= |cs|
    ensures Sending(Swapped(cs, i, n), n - 1, all, delivered + multiset{cs[i]}, removed)
  {
    hide Sending, Swapped;
    MultisetSwap(cs, i, n);
    Permuted(cs, Swapped(cs, i, n), n, n - 1, cs[i], all, delivered, removed);
  }

  lemma Permuted(cs: seq<Channel>, cs': seq<Channel>, n: nat, n': nat, ch: Channel, all: multiset<Channel>,
                 delivered: multiset<Channel>, removed: multiset<Channel>)
    requires Sending(cs, n, all, delivered, removed) && FIRST_SUB_SEND_CASE <= n' <= |cs'| && cs'[0] == cs[0]
    requires multiset(cs'[FIRST_SUB_SEND_CASE..]) == multiset(cs[FIRST_SUB_SEND_CASE..])
    requires multiset(cs'[n'..]) == multiset(cs[n..]) + multiset{ch}
    ensures Sending(cs', n', all, delivered + multiset{ch}, removed)
  {
    assert multiset(cs'[FIRST_SUB_SEND_CASE..])[REMOVE_SUB] == 0;
    assert delivered + multiset{ch} - multiset(cs'[n'..]) == delivered - multiset(cs[n..]);
  }

  lemma Removed(cs: seq<Channel>, n: nat, index: nat, all: multiset<Channel>, delivered: multiset<Channel>,
                removed: multiset<Channel>)
    requires Sending(cs, n, all, delivered, removed) && FIRST_SUB_SEND_CASE <= index < |cs|
    ensures Sending(cs[..index] + cs[index + 1..], if index < n then n - 1 else n, all, delivered,
                    removed + multiset{cs[index]})
  {
    MultisetDelete(cs, FIRST_SUB_SEND_CASE, index);
    var cs' := cs[..index] + cs[index + 1..];
    assert multiset(cs'[FIRST_SUB_SEND_CASE..])[REMOVE_SUB] == 0;
    if index < n {
      assert cs'[n - 1..] == cs[n..];
    } else {
      MultisetDelete(cs, n, index);
    }
  }

  /** The next channel to leave is still there. */
  lemma Leaves(cs: seq<Channel>, n: nat, all: multiset<Channel>, delivered: multiset<Channel>,
               removed: multiset<Channel>, leaving: seq<Channel>, left: nat)
    requires Sending(cs, n, all, delivered, removed) && multiset(leaving) <= all && left < |leaving|
    requires removed == multiset(leaving[..left])
    ensures leaving[left] in cs && leaving[left] != REMOVE_SUB
    ensures removed + multiset{leaving[left]} == multiset(leaving[..left + 1])
  {
    var ch, rest := leaving[left], leaving[left + 1..];
    assert leaving == leaving[..left] + [ch] + rest;
    assert leaving[..left + 1] == leaving[..left] + [ch];
    assert multiset(leaving)[ch] >= removed[ch] + 1;
    assert all[ch] == multiset(cs[FIRST_SUB_SEND_CASE..])[ch] + removed[ch];
  }

  class Feed {
    var sendCases: seq<Channel>
    var inbox: seq<Channel>

    ghost predicate Valid()
      reads this
    {
      && sendCases != [] && sendCases[0] == REMOVE_SUB
      && REMOVE_SUB !in sendCases[FIRST_SUB_SEND_CASE..] && REMOVE_SUB !in inbox
    }

    ghost function Subscribed(): multiset<Channel>
      requires Valid()
      reads this
    {
      multiset(sendCases[FIRST_SUB_SEND_CASE..]) + multiset(inbox)
    }

    constructor ()
      ensures Valid() && Subscribed() == multiset{}
    {
      sendCases, inbox := [REMOVE_SUB], [];
    }

    method Subscribe(ch: Channel)
      requires Valid() && ch != REMOVE_SUB
      modifies this`inbox
      ensures Valid() && Subscribed() == old(Subscribed()) + multiset{ch}
    {
      inbox := inbox + [ch];
    }

    /** `find`. */
    static method Find(cs: seq<Channel>, ch: Channel) returns (index: int)
      ensures index == -1 <==> ch !in cs
      ensures index != -1 ==> 0 <= index < |cs| && cs[index] == ch && ch !in cs[..index]
    {
      for i := 0 to |cs|
        invariant ch !in cs[..i]
      {
        if cs[i] == ch {
          return i;
        }
      }
      index := -1;
    }

    /** `remove` while no value is being sent. */
    method Remove(ch: Channel)
      requires Valid() && ch in Subscribed()
      modifies this`inbox, this`sendCases
      ensures Valid() && Subscribed() == old(Subscribed()) - multiset{ch}
    {
      var index := Find(inbox, ch);
      if index != -1 {
        MultisetDelete(inbox, 0, index);
        inbox := inbox[..index] + inbox[index + 1..];
        return;
      }
      index := Find(sendCases, ch);
      MultisetDelete(sendCases, FIRST_SUB_SEND_CASE, index);
      sendCases := sendCases[..index] + sendCases[index + 1..];
    }

    /** `deactivate`: a served channel leaves the prefix. */
    method Deactivate(n: nat, i: nat, ghost all: multiset<Channel>, ghost delivered: multiset<Channel>,
                      ghost removed: multiset<Channel>)
      requires Sending(sendCases, n, all, delivered, removed) && FIRST_SUB_SEND_CASE <= i < n <= |sendCases|
      modifies this`sendCases
      ensures Sending(sendCases, n - 1, all, delivered + multiset{old(sendCases)[i]}, removed)
      ensures |sendCases| == |old(sendCases)|
    {
      Served(sendCases, n, i, all, delivered, removed);
      sendCases := Swapped(sendCases, i, n);
    }

    /** An unsubscription arrives while a value is on its way. */
    method Drop(ch: Channel, n: nat, ghost all: multiset<Channel>, ghost delivered: multiset<Channel>,
                ghost removed: multiset<Channel>)
      returns (n': nat)
      requires Sending(sendCases, n, all, delivered, removed) && ch in sendCases && ch != REMOVE_SUB
      modifies this`sendCases
      ensures Sending(sendCases, n', all, delivered, removed + multiset{ch}) && n' <= n
      ensures |sendCases| == |old(sendCases)| - 1
    {
      var index := Find(sendCases, ch);
      Removed(sendCases, n, index, all, delivered, removed);
      n' := if index < n then n - 1 else n;
      sendCases := sendCases[..index] + sendCases[index + 1..];
    }

    /** The fast path: try every channel still to be served without blocking. */
    method TrySends(n0: nat, nsent0: nat, ghost all: multiset<Channel>, ghost delivered0: multiset<Channel>,
                    ghost removed: multiset<Channel>)
      returns (n: nat, nsent: nat, ghost delivered: multiset<Channel>)
      requires Sending(sendCases, n0, all, delivered0, removed) && FIRST_SUB_SEND_CASE <= n0 <= |sendCases|
      requires nsent0 == |delivered0|
      modifies this`sendCases
      ensures Sending(sendCases, n, all, delivered, removed) && |sendCases| == |old(sendCases)| && n <= n0
      ensures nsent == |delivered|
    {
      hide Sending;
      n, nsent, delivered := n0, nsent0, delivered0;
      var i := FIRST_SUB_SEND_CASE;
      while i < n
        invariant Sending(sendCases, n, all, delivered, removed) && |sendCases| == |old(sendCases)|
        invariant FIRST_SUB_SEND_CASE <= i && n <= n0
        invariant nsent == |delivered|
        decreases n, n - i
      {
        var sent: bool := *;
        if sent {
          ghost var ch := sendCases[i];
          Deactivate(n, i, all, delivered, removed);
          nsent, n, delivered := nsent + 1, n - 1, delivered + multiset{ch};
        } else {
          i := i + 1;
        }
      }
    }

    /**
     `Send`: whatever succeeds without blocking or is selected, every channel that stays subscribed is served once
     and one that leaves at most once. `leaving` are the channels that will ask to be removed, in order; the first
     `left` of them come while the value is on its way, and nobody else is removed.
     */
    method Send(leaving: seq<Channel>) returns (nsent: nat, left: nat, ghost delivered: multiset<Channel>)
      requires Valid() && multiset(leaving) <= Subscribed()
      modifies this`sendCases, this`inbox
      ensures Valid() && inbox == [] && left <= |leaving|
      ensures Subscribed() + multiset(leaving[..left]) == old(Subscribed())
      ensures Subscribed() <= delivered && delivered - Subscribed() <= multiset(leaving[..left]) && nsent == |delivered|
    {
      hide Sending;
      ghost var all := Subscribed();
      assert (sendCases + inbox)[FIRST_SUB_SEND_CASE..] == sendCases[FIRST_SUB_SEND_CASE..] + inbox;
      sendCases, inbox := sendCases + inbox, [];
      nsent, left, delivered := 0, 0, multiset{};
      ghost var removed := multiset{};
      assert leaving[..0] == [];
      var n := |sendCases|;
      SendStart(sendCases, all);
      while true
        invariant Sending(sendCases, n, all, delivered, removed) && inbox == [] && nsent == |delivered|
        invariant FIRST_SUB_SEND_CASE <= n <= |sendCases| && left <= |leaving| && removed == multiset(leaving[..left])
        decreases |sendCases|, n
      {
        n, nsent, delivered := TrySends(n, nsent, all, delivered, removed);
        SendEnd(sendCases, n, all, delivered, removed);
        if n == FIRST_SUB_SEND_CASE {
          return;
        }
        var chosen: nat :| chosen < n && (chosen == 0 ==> left < |leaving|);
        if chosen == 0 {
          var ch := leaving[left];
          Leaves(sendCases, n, all, delivered, removed, leaving, left);
          left := left + 1;
          n := Drop(ch, n, all, delivered, removed);
          removed := removed + multiset{ch};
          SendEnd(sendCases, n, all, delivered, removed);
        } else {
          ghost var ch := sendCases[chosen];
          Deactivate(n, chosen, all, delivered, removed);
          nsent, n, delivered := nsent + 1, n - 1, delivered + multiset{ch};
        }
      }
    }
  }
}
