/** les/distributor.go: requests wait in creation order for a peer that can serve them. */
module Distributor {
  import opened Peers
  import opened Transactions

  type Req = nat

  /** What the peers and requests answer during one scan. */
  datatype Answers = Answers(canQueue: Peer -> bool, canSend: (Req, Peer) -> bool, waitBefore: (Req, Peer) -> nat)

  /** The peer is able to queue and can serve the request. */
  predicate Serves(a: Answers, p: Peer, r: Req) {
    a.canQueue(p) && a.canSend(r, p)
  }

  ghost predicate Unservable(a: Answers, peers: set<Peer>, r: Req) {
    forall p :: p in peers ==> !Serves(a, p, r)
  }

  /** `r` is the earliest request of the queue the peer can serve. */
  ghost predicate Earliest(a: Answers, queue: seq<Req>, p: Peer, r: Req) {
    exists i ::
      && 0 <= i < |queue| && queue[i] == r && Serves(a, p, r)
      && forall j :: 0 <= j < i ==> !Serves(a, p, queue[j])
  }

  /** Request `i` is the first that the peer, able to queue, can be sent. */
  ghost predicate FirstFor(a: Answers, queue: seq<Req>, p: Peer, i: int) {
    && 0 <= i < |queue| && a.canQueue(p) && a.canSend(queue[i], p)
    && forall j :: 0 <= j < i ==> !(a.canQueue(p) && a.canSend(queue[j], p))
  }

  lemma EarliestMeans(a: Answers, queue: seq<Req>)
    ensures forall p, r :: Earliest(a, queue, p, r) <==> exists i :: FirstFor(a, queue, p, i) && queue[i] == r
    ensures forall p, i :: FirstFor(a, queue, p, i) ==> 0 <= i < |queue| && Earliest(a, queue, p, queue[i])
  {
    forall p, r | Earliest(a, queue, p, r) ensures exists i :: FirstFor(a, queue, p, i) && queue[i] == r {
      var i :| 0 <= i < |queue| && queue[i] == r && Serves(a, p, r) &&
               forall j :: 0 <= j < i ==> !Serves(a, p, queue[j]);
      assert FirstFor(a, queue, p, i);
    }
  }

  lemma NobodyServes(a: Answers, peers: set<Peer>, queue: seq<Req>)
    requires exists k :: Dropped(a, peers, queue, k, |queue|) && queue[k..] == []
    ensures forall p, i :: p in peers ==> !FirstFor(a, queue, p, i)
  {
  }

  ghost predicate Sorted(queue: seq<Req>, order: map<Req, nat>) {
    && (forall i :: 0 <= i < |queue| ==> queue[i] in order)
    && (forall i, j :: 0 <= i < j < |queue| ==> order[queue[i]] < order[queue[j]])
  }

  /** The state of a scan that has looked at the first `n` requests. */
  ghost predicate Scanned(a: Answers, peers: set<Peer>, queue: seq<Req>, n: nat, checked: map<Peer, Req>)
    requires n <= |queue|
  {
    && (forall p :: p in checked ==> p in peers && Earliest(a, queue[..n], p, checked[p]))
    && (forall p, j :: p in peers && p !in checked && 0 <= j < n ==> !Serves(a, p, queue[j]))
  }

  /** The peers that can send at once, and the one with the shortest wait among the others. */
  ghost predicate Tops(a: Answers, checked: map<Peer, Req>, now: set<Peer>, best: Option<Peer>) {
    && (forall p :: p in now <==> p in checked && a.waitBefore(checked[p], p) == 0)
    && (forall p :: p in checked && p !in now ==> best.Some?)
    && (best.Some? ==> best.value in checked && best.value !in now
                       && forall p :: p in checked && p !in now ==>
                            a.waitBefore(checked[best.value], best.value) <= a.waitBefore(checked[p], p))
  }

  /** The peers that serve `r` have been added to `was`. */
  ghost predicate Checked(a: Answers, peers: set<Peer>, r: Req, was: map<Peer, Req>, checked: map<Peer, Req>) {
    && (forall p :: p in checked <==> p in was || (p in peers && Serves(a, p, r)))
    && (forall p :: p in checked ==> checked[p] == if p in was then was[p] else r)
  }

  /** The requests before `k` have been dropped because nobody can serve them. */
  ghost predicate Dropped(a: Answers, peers: set<Peer>, queue: seq<Req>, k: int, n: int) {
    && 0 <= k <= n <= |queue| && (forall i :: 0 <= i < k ==> Unservable(a, peers, queue[i]))
    && (k < n ==> !Unservable(a, peers, queue[k]))
  }

  class RequestDistributor {
    var reqQueue: seq<Req>
    var lastReqOrder: nat
    var order: map<Req, nat>
    var open: set<Req>
    var peers: set<Peer>

    /** The queue is strictly sorted by creation order, and holds exactly the requests with an open channel. */
    ghost predicate Valid()
      reads this
    {
      && Sorted(reqQueue, order) && (forall r :: r in open <==> r in reqQueue)
      && (forall r :: r in order ==> 0 < order[r] <= lastReqOrder)
      && (forall r, s :: r in order && s in order && order[r] == order[s] ==> r == s)
    }

    constructor ()
      ensures Valid() && reqQueue == [] && peers == {}
    {
      reqQueue, lastReqOrder, order, open, peers := [], 0, map[], {}, {};
    }

    /** A request gets its creation order once. */
    method Enrol(r: Req)
      requires Valid()
      modifies this`lastReqOrder, this`order
      ensures Valid() && r in order
      ensures r in old(order) ==> order == old(order) && lastReqOrder == old(lastReqOrder)
      ensures r !in old(order) ==> order == old(order)[r := lastReqOrder] && lastReqOrder == old(lastReqOrder) + 1
    {
      if r !in order {
        lastReqOrder := lastReqOrder + 1;
        order := order[r := lastReqOrder];
      }
    }

    /** Where a request belongs: behind the earlier and before the later ones. */
    method FindPlace(r: Req) returns (before: nat)
      requires Valid() && r in order && r !in reqQueue
      ensures before <= |reqQueue| && Between(reqQueue, order, r, before)
    {
      var n := |reqQueue|;
      before := 0;
      if n == 0 || order[r] > order[reqQueue[n - 1]] {
        before := n;
      } else {
        while order[reqQueue[before]] < order[r]
          invariant 0 <= before < n && order[r] <= order[reqQueue[n - 1]]
          invariant forall i :: 0 <= i < before ==> order[reqQueue[i]] < order[r]
          decreases n - before
        {
          before := before + 1;
        }
        assert reqQueue[before] in reqQueue;
      }
    }

    /** `queue`: a request keeps its creation order when it is queued again. */
    method Queue(r: Req)
      requires Valid() && r !in reqQueue
      modifies this`reqQueue, this`lastReqOrder, this`order, this`open
      ensures Valid() && open == old(open) + {r} && exists i :: Inserted(old(reqQueue), r, i, reqQueue)
      ensures r in old(order) ==> order == old(order)
      ensures r !in old(order) ==> order == old(order)[r := lastReqOrder] && lastReqOrder == old(lastReqOrder) + 1
    {
      hide Sorted, Between;
      Enrol(r);
      var before := FindPlace(r);
      InsertSorted(reqQueue, order, r, before);
      reqQueue := reqQueue[..before] + [r] + reqQueue[before..];
      open := open + {r};
      assert Inserted(old(reqQueue), r, before, reqQueue);
    }

    /** `remove`. */
    method Remove(r: Req)
      requires Valid()
      modifies this`reqQueue, this`open
      ensures Valid() && r !in reqQueue && open == old(open) - {r}
      ensures Without(old(reqQueue), r, reqQueue)
    {
      open := open - {r};
      if i :| 0 <= i < |reqQueue| && reqQueue[i] == r {
        reqQueue := reqQueue[..i] + reqQueue[i + 1..];
      }
    }

    /** `cancel`: only a request that has not been sent can be cancelled. */
    method Cancel(r: Req) returns (ok: bool)
      requires Valid()
      modifies this`reqQueue, this`open
      ensures Valid() && (ok <==> r in old(reqQueue)) && r !in reqQueue && Without(old(reqQueue), r, reqQueue)
    {
      ok := r in open;
      if ok {
        Remove(r);
      }
    }

    /** Which unchecked peers can serve `r`, and how soon. */
    method CheckPeers(a: Answers, r: Req, was: map<Peer, Req>, wasNow: set<Peer>, wasBest: Option<Peer>)
      returns (canSend: bool, checked: map<Peer, Req>, now: set<Peer>, best: Option<Peer>)
      requires Tops(a, was, wasNow, wasBest) && (wasBest.Some? ==> wasBest.value in was)
      ensures best.Some? ==> best.value in checked
      ensures Checked(a, peers, r, was, checked) && Tops(a, checked, now, best)
      ensures canSend <==> exists p :: p in peers && p !in was && Serves(a, p, r)
    {
      hide Tops, Checked, Serves;
      var rest := peers;
      canSend, checked, now, best := false, was, wasNow, wasBest;
      CheckNone(a, r, was);
      assert peers - rest == {};
      while rest != {}
        invariant rest <= peers && Checked(a, peers - rest, r, was, checked) && Tops(a, checked, now, best)
        invariant best.Some? ==> best.value in checked
        invariant canSend <==> exists p :: p in peers - rest && p !in was && Serves(a, p, r)
        decreases |rest|
      {
        var p :| p in rest;
        CheckOne(a, peers - rest, r, was, checked, p);
        TopsOne(a, checked, now, best, p, r);
        assert peers - (rest - {p}) == peers - rest + {p};
        rest := rest - {p};
        if p !in checked && Serves(a, p, r) {
          canSend := true;
          var wait := a.waitBefore(r, p);
          if wait == 0 {
            now := now + {p};
          } else if best.None? || wait < a.waitBefore(checked[best.value], best.value) {
            best := Some(p);
          }
          checked := checked[p := r];
        }
      }
      assert peers - rest == peers;
    }

    /** The scan of the queue. */
    method ScanQueue(a: Answers) returns (peer: Option<Peer>, req: Req, wait: nat)
      requires Valid()
      modifies this`reqQueue, this`open
      ensures Valid()
      ensures exists k :: Dropped(a, peers, old(reqQueue), k, |old(reqQueue)|) && reqQueue == old(reqQueue)[k..]
      ensures peer.None? ==> reqQueue == []
      ensures peer.Some? ==>
                && peer.value in peers && Earliest(a, old(reqQueue), peer.value, req)
                && wait == a.waitBefore(req, peer.value)
                && forall p, r :: p in peers && Earliest(a, old(reqQueue), p, r) ==> wait <= a.waitBefore(r, p)
    {
      hide Earliest, Scanned, Tops, Checked, Dropped, Without, Serves;
      var queue := reqQueue;
      var n, k: nat := 0, 0;
      var checked: map<Peer, Req>, now: set<Peer>, best := map[], {}, None;
      ScanStart(a, peers, queue);
      while (peers != {} || n == k) && n < |queue|
        invariant 0 <= k <= n <= |queue| && Valid() && reqQueue == queue[k..]
        invariant Scanned(a, peers, queue, n, checked) && Tops(a, checked, now, best) && Dropped(a, peers, queue, k, n)
        invariant best.Some? ==> best.value in checked
        invariant (peers == {} ==> n == k) && (n == k ==> checked == map[]) && (n > k ==> checked != map[])
      {
        var r := queue[n];
        var canSend, checked', now', best' := CheckPeers(a, r, checked, now, best);
        ScanStep(a, peers, queue, n, checked, checked');
        DropStep(a, peers, queue, k, n, checked, canSend, checked');
        checked, now, best := checked', now', best';
        if !canSend && n == k {
          assert queue[k..][1..] == queue[k + 1..];
          RemoveFirst();
          k := k + 1;
        }
        n := n + 1;
      }
      assert Dropped(a, peers, queue, k, |queue|);
      if now != {} {
        var p :| p in now;
        ScanDone(a, peers, queue, checked, now, best, p);
        return Some(p), checked[p], 0;
      }
      if best.None? {
        NoTops(a, checked, now, best);
        return None, 0, 0;
      }
      ScanDone(a, peers, queue, checked, now, best, best.value);
      return best, checked[best.value], a.waitBefore(checked[best.value], best.value);
    }

    /**
     `nextRequest`: drop the leading requests that nobody can serve; then pick a peer that can send
     its earliest request at once, or else the one with the shortest wait.
     */
    method NextRequest(a: Answers) returns (peer: Option<Peer>, req: Req, wait: nat)
      requires Valid()
      modifies this`reqQueue, this`open
      ensures Valid()
      ensures exists k :: Dropped(a, peers, old(reqQueue), k, |old(reqQueue)|) && reqQueue == old(reqQueue)[k..]
      ensures peer.None? ==> reqQueue == []
      ensures peer.Some? ==>
                && peer.value in peers && Earliest(a, old(reqQueue), peer.value, req)
                && wait == a.waitBefore(req, peer.value)
                && forall p, r :: p in peers && Earliest(a, old(reqQueue), p, r) ==> wait <= a.waitBefore(r, p)
      ensures peer.Some? ==>
                exists i :: FirstFor(a, old(reqQueue), peer.value, i) && old(reqQueue)[i] == req
      ensures forall p, i :: p in peers && FirstFor(a, old(reqQueue), p, i) ==>
                peer.Some? && wait <= a.waitBefore(old(reqQueue)[i], p)
    {
      hide Earliest, Dropped, FirstFor;
      EarliestMeans(a, reqQueue);
      peer, req, wait := ScanQueue(a);
      if peer.None? {
        NobodyServes(a, peers, old(reqQueue));
      }
    }

    method RemoveFirst()
      requires Valid() && reqQueue != []
      modifies this`reqQueue, this`open
      ensures Valid() && reqQueue == old(reqQueue)[1..]
    {
      assert reqQueue == [reqQueue[0]] + reqQueue[1..];
      open := open - {reqQueue[0]};
      reqQueue := reqQueue[1..];
    }
  }

  lemma CheckNone(a: Answers, r: Req, was: map<Peer, Req>)
    ensures Checked(a, {}, r, was, was)
  {
  }

  lemma CheckOne(a: Answers, seen: set<Peer>, r: Req, was: map<Peer, Req>, checked: map<Peer, Req>, p: Peer)
    requires Checked(a, seen, r, was, checked) && p !in seen
    ensures Checked(a, seen + {p}, r, was, if p !in checked && Serves(a, p, r) then checked[p := r] else checked)
    ensures p in checked <==> p in was
  {
  }

  lemma TopsOne(a: Answers, checked: map<Peer, Req>, now: set<Peer>, best: Option<Peer>, p: Peer, r: Req)
    requires Tops(a, checked, now, best) && (best.Some? ==> best.value in checked)
    ensures p !in checked && a.waitBefore(r, p) == 0 ==> Tops(a, checked[p := r], now + {p}, best)
    ensures p !in checked && a.waitBefore(r, p) != 0 ==>
              Tops(a, checked[p := r], now,
                   if best.None? || a.waitBefore(r, p) < a.waitBefore(checked[best.value], best.value) then Some(p)
                   else best)
  {
  }

  lemma ScanStart(a: Answers, peers: set<Peer>, queue: seq<Req>)
    ensures Scanned(a, peers, queue, 0, map[]) && Tops(a, map[], {}, None) && Dropped(a, peers, queue, 0, 0)
  {
  }

  lemma ScanStep(a: Answers, peers: set<Peer>, queue: seq<Req>, n: nat, was: map<Peer, Req>, checked: map<Peer, Req>)
    requires n < |queue| && Scanned(a, peers, queue, n, was) && Checked(a, peers, queue[n], was, checked)
    ensures Scanned(a, peers, queue, n + 1, checked)
  {
    forall p | p in checked ensures p in peers && Earliest(a, queue[..n + 1], p, checked[p]) {
      if p in was {
        var i :| 0 <= i < n && queue[..n][i] == was[p] && Serves(a, p, was[p]) &&
                 forall j :: 0 <= j < i ==> !Serves(a, p, queue[..n][j]);
        assert forall j :: 0 <= j < i ==> queue[..n + 1][j] == queue[..n][j];
        assert queue[..n + 1][i] == was[p];
      } else {
        assert queue[..n + 1][n] == queue[n];
      }
    }
  }

  lemma DropStep(a: Answers, peers: set<Peer>, queue: seq<Req>, k: nat, n: nat, was: map<Peer, Req>, canSend: bool,
                 checked: map<Peer, Req>)
    requires n < |queue| && Dropped(a, peers, queue, k, n) && Checked(a, peers, queue[n], was, checked)
    requires canSend <==> exists p :: p in peers && p !in was && Serves(a, p, queue[n])
    requires n == k ==> was == map[]
    ensures Dropped(a, peers, queue, if !canSend && n == k then k + 1 else k, n + 1)
    ensures n == k && !canSend ==> checked == map[]
    ensures canSend || was != map[] ==> checked != map[]
    ensures peers == {} ==> !canSend
  {
  }

  /** The peer taken is at its earliest request, and no peer could send its own sooner. */
  lemma ScanDone(a: Answers, peers: set<Peer>, queue: seq<Req>, checked: map<Peer, Req>, now: set<Peer>,
                 best: Option<Peer>, p: Peer)
    requires Scanned(a, peers, queue, |queue|, checked) && Tops(a, checked, now, best)
    requires p in now || (now == {} && best == Some(p))
    ensures p in checked && p in peers && Earliest(a, queue, p, checked[p])
    ensures p in now ==> a.waitBefore(checked[p], p) == 0
    ensures forall q, r :: q in peers && Earliest(a, queue, q, r) ==> a.waitBefore(checked[p], p) <= a.waitBefore(r, q)
  {
    assert queue[..|queue|] == queue;
    forall q, r | q in peers && Earliest(a, queue, q, r) ensures q in checked && checked[q] == r {
      EarliestUnique(a, queue, q, r, checked);
    }
  }

  lemma EarliestUnique(a: Answers, queue: seq<Req>, q: Peer, r: Req, checked: map<Peer, Req>)
    requires Earliest(a, queue, q, r)
    requires q in checked ==> Earliest(a, queue, q, checked[q])
    requires q !in checked ==> forall j :: 0 <= j < |queue| ==> !Serves(a, q, queue[j])
    ensures q in checked && checked[q] == r
  {
  }

  lemma NoTops(a: Answers, checked: map<Peer, Req>, now: set<Peer>, best: Option<Peer>)
    requires Tops(a, checked, now, best) && now == {} && best.None?
    ensures checked == map[]
  {
  }

  ghost predicate Inserted(queue: seq<Req>, r: Req, i: int, queue': seq<Req>) {
    0 <= i <= |queue| && queue' == queue[..i] + [r] + queue[i..]
  }

  /** `r` comes after the first `i` requests and before the next one. */
  ghost predicate Between(queue: seq<Req>, order: map<Req, nat>, r: Req, i: nat)
    requires Sorted(queue, order) && r in order && i <= |queue|
  {
    && (forall j :: 0 <= j < i ==> order[queue[j]] < order[r])
    && (i < |queue| ==> order[r] < order[queue[i]])
  }

  lemma InsertSorted(queue: seq<Req>, order: map<Req, nat>, r: Req, i: nat)
    requires Sorted(queue, order) && r in order && i <= |queue| && Between(queue, order, r, i)
    ensures Sorted(queue[..i] + [r] + queue[i..], order)
    ensures forall q :: q in queue[..i] + [r] + queue[i..] <==> q in queue || q == r
  {
  }

  ghost predicate Without(queue: seq<Req>, r: Req, queue': seq<Req>) {
    if r in queue then exists i :: 0 <= i < |queue| && queue[i] == r && queue' == queue[..i] + queue[i + 1..]
    else queue' == queue
  }
}
