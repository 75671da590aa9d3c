/**
 What the retrieval loop of les/retrieve.go knows about its attempts. Every attempt reports
 through one event queue; the loop has seen only the events it has taken from it.
 */
module RetrieveViews {
  import opened Peers
  import opened Transactions

  datatype Event = Sent(peer: Peer) | NotSent | SoftTimeout(peer: Peer) | HardTimeout(peer: Peer)
                 | Delivered(peer: Peer, valid: bool)

  /** One attempt as the loop sees it. */
  datatype View = Waiting | Recent(peer: Peer) | Late(peer: Peer) | Over

  predicate Active(v: View) {
    v.Waiting? || v.Recent?
  }

  predicate Holds(v: View, p: Peer) {
    v == Recent(p) || v == Late(p)
  }

  /** How an event of an attempt changes the view of it, if it may come next. */
  function Advance(v: View, e: Event): Option<View> {
    match e
    case Sent(p) => if v.Waiting? then Some(Recent(p)) else None
    case NotSent => if v.Waiting? then Some(Over) else None
    case SoftTimeout(p) => if v == Recent(p) then Some(Late(p)) else None
    case HardTimeout(p) => if v == Late(p) then Some(Over) else None
    case Delivered(p, _) => if Holds(v, p) then Some(Over) else None
  }

  /** At most one attempt is queued or recent, and no peer has two attempts. */
  ghost predicate Good(views: seq<View>) {
    && (forall i, j :: 0 <= i < |views| && 0 <= j < |views| && Active(views[i]) && Active(views[j]) ==> i == j)
    && (forall i, j, p: Peer ::
          0 <= i < |views| && 0 <= j < |views| && Holds(views[i], p) && Holds(views[j], p) ==> i == j)
  }

  /** The pending events lead from what the loop sees to what is, through good views only. */
  ghost predicate Tracks(views: seq<View>, events: seq<Event>, ids: seq<nat>, actual: seq<View>)
    decreases |events|
  {
    && |events| == |ids| && Good(views)
    && if events == [] then views == actual
       else
         && ids[0] < |views| && Advance(views[ids[0]], events[0]).Some?
         && Tracks(views[ids[0] := Advance(views[ids[0]], events[0]).value], events[1..], ids[1..], actual)
  }

  lemma {:induction false} TracksReal(views: seq<View>, events: seq<Event>, ids: seq<nat>, actual: seq<View>)
    requires Tracks(views, events, ids, actual)
    ensures |actual| == |views| && Good(actual)
    decreases |events|
  {
    if events != [] {
      TracksReal(views[ids[0] := Advance(views[ids[0]], events[0]).value], events[1..], ids[1..], actual);
    }
  }

  /** An attempt reports. */
  lemma {:induction false} TracksEmit(views: seq<View>, events: seq<Event>, ids: seq<nat>, actual: seq<View>, i: nat,
                                      e: Event)
    requires Tracks(views, events, ids, actual) && i < |actual| && Advance(actual[i], e).Some?
    requires Good(actual[i := Advance(actual[i], e).value])
    ensures Tracks(views, events + [e], ids + [i], actual[i := Advance(actual[i], e).value])
    decreases |events|
  {
    if events != [] {
      assert (events + [e])[1..] == events[1..] + [e] && (ids + [i])[1..] == ids[1..] + [i];
      TracksEmit(views[ids[0] := Advance(views[ids[0]], events[0]).value], events[1..], ids[1..], actual, i, e);
    }
  }

  ghost predicate NoneActive(views: seq<View>) {
    forall i :: 0 <= i < |views| ==> !Active(views[i])
  }

  /** A new attempt may start once the loop sees no active one. */
  lemma {:induction false} TracksLaunch(views: seq<View>, events: seq<Event>, ids: seq<nat>, actual: seq<View>)
    requires Tracks(views, events, ids, actual) && NoneActive(views)
    ensures Tracks(views + [Waiting], events, ids, actual + [Waiting])
    decreases |events|
  {
    if events != [] {
      var views' := views[ids[0] := Advance(views[ids[0]], events[0]).value];
      TracksLaunch(views', events[1..], ids[1..], actual);
      assert (views + [Waiting])[ids[0] := views'[ids[0]]] == views' + [Waiting];
    }
  }

  /** When the loop sees every attempt over, nothing is pending and every attempt is over. */
  lemma TracksOver(views: seq<View>, events: seq<Event>, ids: seq<nat>, actual: seq<View>)
    requires Tracks(views, events, ids, actual) && forall i :: 0 <= i < |views| ==> views[i] == Over
    ensures events == [] && actual == views
  {
  }

  // ----- the three flags -----

  ghost function Lates(views: seq<View>): nat {
    if views == [] then 0 else Lates(views[..|views| - 1]) + if views[|views| - 1].Late? then 1 else 0
  }

  /** The flags count the views exactly. */
  ghost predicate Exact(queued: bool, recent: Option<Peer>, late: int, views: seq<View>) {
    && (queued <==> Waiting in views) && (forall p: Peer :: recent == Some(p) <==> Recent(p) in views)
    && late == Lates(views)
  }

  lemma {:induction false} LatesUpdate(views: seq<View>, i: nat, v: View)
    requires i < |views|
    ensures Lates(views[i := v]) == Lates(views) - (if views[i].Late? then 1 else 0) + if v.Late? then 1 else 0
  {
    var n := |views| - 1;
    if i == n {
      assert views[i := v][..n] == views[..n];
    } else {
      assert views[i := v][..n] == views[..n][i := v];
      LatesUpdate(views[..n], i, v);
    }
  }

  lemma {:induction false} NoLates(views: seq<View>)
    ensures Lates(views) == 0 <==> forall i :: 0 <= i < |views| ==> !views[i].Late?
  {
    if views != [] {
      NoLates(views[..|views| - 1]);
      assert forall i :: 0 <= i < |views| - 1 ==> views[i] == views[..|views| - 1][i];
    }
  }

  /** `waiting`: some attempt is not over. */
  lemma WaitingIff(queued: bool, recent: Option<Peer>, late: int, views: seq<View>)
    requires Exact(queued, recent, late, views)
    ensures queued || recent.Some? || late > 0 <==> exists i :: 0 <= i < |views| && views[i] != Over
  {
    NoLates(views);
    if queued || recent.Some? || late > 0 {
      if recent.Some? {
        assert Recent(recent.value) in views;
      }
    } else {
      forall i | 0 <= i < |views| ensures views[i] == Over {
        assert views[i] in views;
      }
    }
  }

  /** `update`, as a function of the flags. */
  function Updated(queued: bool, recent: Option<Peer>, late: int, e: Event): (bool, Option<Peer>, int) {
    match e
    case Sent(p) => (false, Some(p), late)
    case NotSent => (false, None, late)
    case SoftTimeout(_) => (queued, None, late + 1)
    case HardTimeout(_) => (queued, recent, late - 1)
    case Delivered(p, _) => if recent == Some(p) then (queued, None, late) else (queued, recent, late - 1)
  }

  /** Updating keeps the flags exact: no peer is taken for another one. */
  lemma UpdatedExact(queued: bool, recent: Option<Peer>, late: int, views: seq<View>, i: nat, e: Event)
    requires Exact(queued, recent, late, views) && Good(views) && i < |views| && Advance(views[i], e).Some?
    ensures var (q, r, l) := Updated(queued, recent, late, e);
            Exact(q, r, l, views[i := Advance(views[i], e).value])
  {
    hide Lates;
    var v := Advance(views[i], e).value;
    LatesUpdate(views, i, v);
    var views' := views[i := v];
    assert views'[i] == v && views[i] in views;
    forall j | 0 <= j < |views| && j != i ensures views'[j] == views[j] && (Active(views[i]) ==> !Active(views[j])) {
    }
    assert Waiting in views' <==> exists j :: 0 <= j < |views| && views'[j] == Waiting;
    forall p ensures Recent(p) in views' <==> v == Recent(p) || (Recent(p) in views && views[i] != Recent(p)) {
      if Recent(p) in views && views[i] != Recent(p) {
        var j :| 0 <= j < |views| && views[j] == Recent(p);
        assert views'[j] == Recent(p);
      }
    }
  }
}
