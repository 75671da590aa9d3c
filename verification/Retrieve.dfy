/**
 les/retrieve.go: the retrieval of one request. The loop and the attempts it starts are
 concurrent; each method is one step of one of them, and the steps may come in any order.
 */
module Retrieve {
  import opened Peers
  import opened Transactions
  import opened RetrieveViews

  /** Where an attempt (`tryRequest`) is. */
  datatype Phase = Queued | Assigned(peer: Peer) | Fresh(peer: Peer) | Soft(peer: Peer) | Finished(peer: Peer) | Gone

  datatype LoopState = Requesting | NoMorePeers | Stopped | Exited

  /** An entry of `sentTo`; `reply` is the content of its `valid` channel. */
  datatype Entry = Entry(delivered: bool, reply: Option<bool>)

  /** The error `retrieve` returns; `None` is nil. */
  type Error = Option<nat>

  const ERR_NO_PEERS: Error := Some(0)

  function ViewOf(ph: Phase): View {
    match ph
    case Queued => Waiting
    case Assigned(_) => Waiting
    case Fresh(p) => Recent(p)
    case Soft(p) => Late(p)
    case Finished(_) => Over
    case Gone => Over
  }

  function PeerOf(ph: Phase): Option<Peer> {
    if ph.Queued? || ph.Gone? then None else Some(ph.peer)
  }

  predicate At(ph: Phase, p: Peer) {
    PeerOf(ph) == Some(p)
  }

  ghost function Actual(attempts: seq<Phase>): (r: seq<View>)
    ensures |r| == |attempts| && forall i :: 0 <= i < |r| ==> r[i] == ViewOf(attempts[i])
  {
    seq(|attempts|, i requires 0 <= i < |attempts| => ViewOf(attempts[i]))
  }

  /** Every peer in `sentTo` belongs to one attempt, and every attempt at a peer is in it. */
  ghost predicate Owned(attempts: seq<Phase>, sentTo: map<Peer, Entry>, owner: map<Peer, nat>) {
    && owner.Keys == sentTo.Keys
    && (forall p :: p in owner ==> owner[p] < |attempts| && At(attempts[owner[p]], p))
    && (forall i :: 0 <= i < |attempts| && PeerOf(attempts[i]).Some? ==>
          PeerOf(attempts[i]).value in owner && owner[PeerOf(attempts[i]).value] == i)
  }

  /** The replies accepted for each attempt: at most one, and the channel holds no other. */
  ghost predicate Replied(attempts: seq<Phase>, sentTo: map<Peer, Entry>, owner: map<Peer, nat>,
                          accepted: seq<seq<bool>>) {
    && |accepted| == |attempts| && (forall i :: 0 <= i < |accepted| ==> |accepted[i]| <= 1)
    && (forall i :: 0 <= i < |attempts| && attempts[i].Queued? ==> accepted[i] == [])
    && (forall p :: p in owner && p in sentTo && owner[p] < |accepted| ==>
          && (sentTo[p].delivered <==> accepted[owner[p]] != [])
          && (sentTo[p].reply.Some? ==> accepted[owner[p]] == [sentTo[p].reply.value]))
  }

  ghost predicate Evidence(events: seq<Event>, ids: seq<nat>, accepted: seq<seq<bool>>) {
    && |events| == |ids|
    && forall k, p: Peer :: 0 <= k < |events| && events[k] == Delivered(p, true) ==>
         ids[k] < |accepted| && accepted[ids[k]] == [true]
  }

  /** One step of an attempt, of the loop, of a peer or of the caller. */
  datatype Step =
    | DoDispatch(i: nat, p: Peer) | DoFail(i: nat) | DoSent(i: nat)
    | DoReply(i: nat) | DoSoft(i: nat) | DoHard(i: nat) | DoLeave(i: nat)
    | DoDeliver(p: Peer, valid: bool) | DoCancel(e: nat) | DoLoop | DoRetry | DoNotice

  /** The errors with which the caller cancelled, in order. */
  function Cancels(steps: seq<Step>): seq<nat> {
    if steps == [] then []
    else
      var last := steps[|steps| - 1];
      Cancels(steps[..|steps| - 1]) + if last.DoCancel? then [last.e] else []
  }

  /** A reply that passed validation. */
  predicate GoodReply(e: Event) {
    e.Delivered? && e.valid
  }

  ghost predicate Heard(taken: seq<Event>) {
    exists e :: e in taken && GoodReply(e)
  }

  /** What has stopped the request decides its error: a good reply, the caller, or the lack of peers at the end. */
  ghost predicate Decided(state: LoopState, stopped: bool, err: Error, taken: seq<Event>, calls: seq<nat>) {
    && (!stopped ==> calls == [] && !Heard(taken) && (state == Requesting || state == NoMorePeers))
    && (stopped && err.None? ==> Heard(taken))
    && (stopped && err.Some? ==> err == ERR_NO_PEERS || (calls != [] && err == Some(calls[0])))
    && (stopped && calls == [] && err.Some? ==> state == Exited && !Heard(taken))
  }

  lemma HeardMore(taken: seq<Event>, e: Event)
    ensures Heard(taken + [e]) <==> Heard(taken) || GoodReply(e)
  {
    if Heard(taken) {
      var x :| x in taken && GoodReply(x);
      assert x in taken + [e];
    }
    if GoodReply(e) {
      assert e in taken + [e];
    }
  }

  /** A report taken while the loop runs: a good reply stops it without error, any other changes nothing or ends it. */
  lemma DecidedOn(state: LoopState, stopped: bool, err: Error, taken: seq<Event>, calls: seq<nat>, e: Event)
    requires Decided(state, stopped, err, taken, calls) && (state == Requesting || state == NoMorePeers)
    ensures GoodReply(e) ==> Decided(Stopped, true, if stopped then err else None, taken + [e], calls)
    ensures !GoodReply(e) ==>
              && Decided(Requesting, stopped, err, taken + [e], calls)
              && Decided(NoMorePeers, stopped, err, taken + [e], calls)
              && Decided(Exited, true, if stopped then err else ERR_NO_PEERS, taken + [e], calls)
  {
    hide Heard;
    HeardMore(taken, e);
  }

  class SentReq {
    var state: LoopState
    var lastReqQueued: bool
    var lastReqSentTo: Option<Peer>
    var reqSrtoCount: int
    var events: seq<Event>
    var sentTo: map<Peer, Entry>
    var stopped: bool
    var err: Error
    var attempts: seq<Phase>
    ghost var ids: seq<nat>
    ghost var views: seq<View>
    ghost var owner: map<Peer, nat>
    ghost var accepted: seq<seq<bool>>
    /** The reports the loop has taken, and the errors of the caller's calls of `stop`. */
    ghost var taken: seq<Event>
    ghost var calls: seq<nat>

    ghost predicate Core()
      reads this`lastReqQueued, this`lastReqSentTo, this`reqSrtoCount
      reads this`events, this`sentTo, this`stopped, this`err, this`attempts
      reads this`ids, this`views, this`owner, this`accepted
    {
      && Tracks(views, events, ids, Actual(attempts)) && Exact(lastReqQueued, lastReqSentTo, reqSrtoCount, views)
      && Owned(attempts, sentTo, owner) && Replied(attempts, sentTo, owner, accepted) && Evidence(events, ids, accepted)
      && (stopped && err.None? ==> [true] in accepted)
    }

    ghost predicate Valid()
      reads this
    {
      && Core()
      && (state == Requesting ==> lastReqQueued || lastReqSentTo.Some?)
      && (state == NoMorePeers ==> !lastReqQueued && lastReqSentTo.None?)
      && (state == Exited ==> !lastReqQueued && lastReqSentTo.None? && reqSrtoCount <= 0)
      && Decided(state, stopped, err, taken, calls)
    }

    constructor ()
      ensures Valid() && state == Requesting && attempts == [Queued] && !stopped && calls == [] && taken == []
    {
      attempts, lastReqQueued, state := [Queued], true, Requesting;
      lastReqSentTo, reqSrtoCount, events, sentTo, stopped, err := None, 0, [], map[], false, None;
      ids, views, owner, accepted, taken, calls := [], [Waiting], map[], [[]], [], [];
    }

    /** `waiting`. */
    predicate IsWaiting()
      reads this
    {
      lastReqQueued || lastReqSentTo.Some? || reqSrtoCount > 0
    }

    /** The flags are exact, so a loop that waits for nothing leaves nothing behind. */
    lemma NothingOutstanding()
      requires Valid() && !IsWaiting()
      ensures events == [] && forall i :: 0 <= i < |attempts| ==> attempts[i].Finished? || attempts[i].Gone?
    {
      WaitingIff(lastReqQueued, lastReqSentTo, reqSrtoCount, views);
      TracksOver(views, events, ids, Actual(attempts));
      assert forall i :: 0 <= i < |attempts| ==> Actual(attempts)[i] == Over;
    }

    /** A loop that waits has an event to take or an attempt that will send one. */
    lemma NoDeadlock() returns (i: nat)
      requires Valid() && IsWaiting() && events == []
      ensures i < |attempts| && !attempts[i].Finished? && !attempts[i].Gone?
    {
      hide Owned, Replied, Evidence, Decided, Exact;
      WaitingIff(lastReqQueued, lastReqSentTo, reqSrtoCount, views);
      i :| i < |views| && views[i] != Over;
      assert Actual(attempts)[i] == views[i];
    }

    /** The request is queued at the distributor at most once, and no peer is asked twice at once. */
    lemma QueuedOnce(i: nat, j: nat)
      requires Valid() && i < |attempts| && j < |attempts| && i != j
      ensures !(attempts[i].Queued? && attempts[j].Queued?)
      ensures forall p: Peer :: !(At(attempts[i], p) && At(attempts[j], p))
    {
      TracksReal(views, events, ids, Actual(attempts));
      assert Actual(attempts)[i] == ViewOf(attempts[i]) && Actual(attempts)[j] == ViewOf(attempts[j]);
      forall p: Peer | At(attempts[i], p) ensures !At(attempts[j], p) {
        assert owner[p] == i;
      }
    }

    // ----- the attempts -----

    /** The distributor hands the request to a peer that has no attempt, entering it in `sentTo` first. */
    method Dispatch(i: nat, p: Peer)
      requires Valid() && i < |attempts| && attempts[i].Queued? && p !in sentTo
      modifies this`attempts, this`sentTo, this`owner
      ensures Valid() && attempts == old(attempts)[i := Assigned(p)] && sentTo == old(sentTo)[p := Entry(false, None)]
    {
      hide Tracks, Exact, Evidence, Owned, Replied, Heard;
      SameViews(attempts, i, Assigned(p));
      OwnedMore(attempts, sentTo, owner, accepted, i, p);
      attempts, sentTo, owner := attempts[i := Assigned(p)], sentTo[p := Entry(false, None)], owner[p := i];
    }

    /** An attempt moves on and reports it. */
    method Report(i: nat, ph: Phase, e: Event)
      requires Valid() && i < |attempts| && Advance(ViewOf(attempts[i]), e) == Some(ViewOf(ph))
      requires PeerOf(attempts[i]) == PeerOf(ph)
      requires !ph.Queued? && (e.Delivered? && e.valid ==> i < |accepted| && accepted[i] == [true])
      modifies this`attempts, this`events, this`ids
      ensures Valid() && attempts == old(attempts)[i := ph] && events == old(events) + [e]
    {
      hide Tracks, Exact, Evidence, Owned, Replied, Good, Heard;
      TracksReal(views, events, ids, Actual(attempts));
      OwnedMove(attempts, sentTo, owner, accepted, i, ph);
      EvidenceMore(events, ids, accepted, i, e);
      StaysGood(attempts, sentTo, owner, i, ph);
      TracksEmit(views, events, ids, Actual(attempts), i, e);
      attempts, events, ids := attempts[i := ph], events + [e], ids + [i];
    }

    /** No suitable peer, or cancelled while still queued. */
    method FailToSend(i: nat)
      requires Valid() && i < |attempts| && attempts[i].Queued?
      modifies this`attempts, this`events, this`ids
      ensures Valid() && attempts == old(attempts)[i := Gone] && events == old(events) + [NotSent]
    {
      Report(i, Gone, NotSent);
    }

    /** The peer comes back from the distributor; its `sentTo` entry is there, so the lookup cannot fail. */
    method ReportSent(i: nat)
      requires Valid() && i < |attempts| && attempts[i].Assigned?
      modifies this`attempts, this`events, this`ids
      ensures Valid() && attempts == old(attempts)[i := Fresh(old(attempts)[i].peer)]
      ensures events == old(events) + [Sent(old(attempts)[i].peer)]
      ensures attempts[i].peer in sentTo
    {
      var p := attempts[i].peer;
      Report(i, Fresh(p), Sent(p));
      assert At(attempts[i], p);
    }

    /** A verdict arrives on the `valid` channel. */
    method TakeReply(i: nat)
      requires Valid() && i < |attempts| && (attempts[i].Fresh? || attempts[i].Soft?)
      requires attempts[i].peer in sentTo && sentTo[attempts[i].peer].reply.Some?
      modifies this`attempts, this`events, this`ids, this`sentTo
      ensures Valid() && attempts == old(attempts)[i := Finished(old(attempts)[i].peer)]
      ensures var p := old(attempts)[i].peer; events == old(events) + [Delivered(p, old(sentTo)[p].reply.value)]
    {
      hide Tracks, Exact, Evidence, Owned, Replied, Heard;
      var p := attempts[i].peer;
      var valid := sentTo[p].reply.value;
      ReplyOf(attempts, sentTo, owner, accepted, i, p);
      Report(i, Finished(p), Delivered(p, valid));
      Taken(attempts, sentTo, owner, accepted, p);
      sentTo := sentTo[p := sentTo[p].(reply := None)];
    }

    method TimeOutSoft(i: nat)
      requires Valid() && i < |attempts| && attempts[i].Fresh?
      modifies this`attempts, this`events, this`ids
      ensures Valid() && attempts == old(attempts)[i := Soft(old(attempts)[i].peer)]
      ensures events == old(events) + [SoftTimeout(old(attempts)[i].peer)]
    {
      Report(i, Soft(attempts[i].peer), SoftTimeout(attempts[i].peer));
    }

    method TimeOutHard(i: nat)
      requires Valid() && i < |attempts| && attempts[i].Soft?
      modifies this`attempts, this`events, this`ids
      ensures Valid() && attempts == old(attempts)[i := Finished(old(attempts)[i].peer)]
      ensures events == old(events) + [HardTimeout(old(attempts)[i].peer)]
    {
      Report(i, Finished(attempts[i].peer), HardTimeout(attempts[i].peer));
    }

    /** The deferred clean-up of an attempt. */
    method Leave(i: nat)
      requires Valid() && i < |attempts| && attempts[i].Finished?
      modifies this`attempts, this`sentTo, this`owner
      ensures Valid() && attempts == old(attempts)[i := Gone] && sentTo == old(sentTo) - {old(attempts)[i].peer}
    {
      hide Tracks, Exact, Evidence, Owned, Replied, Heard;
      var p := attempts[i].peer;
      SameViews(attempts, i, Gone);
      OwnedLess(attempts, sentTo, owner, accepted, i, p);
      attempts, sentTo, owner := attempts[i := Gone], sentTo - {p}, owner - {p};
    }

    /** `deliver`: a reply is accepted if its peer has an entry that has not been answered. */
    method Deliver(p: Peer, valid: bool) returns (ok: bool)
      requires Valid()
      modifies this`sentTo, this`accepted
      ensures Valid()
      ensures ok <==> p in old(sentTo) && !old(sentTo)[p].delivered
      ensures !ok ==> sentTo == old(sentTo) && accepted == old(accepted)
      ensures ok ==>
                sentTo == old(sentTo)[p := Entry(true, Some(valid))] && accepted == old(accepted)[owner[p] := [valid]]
    {
      hide Tracks, Exact, Evidence, Owned, Replied, Heard;
      if p !in sentTo || sentTo[p].delivered {
        return false;
      }
      Accepts(attempts, sentTo, owner, accepted, p, valid);
      EvidenceStays(events, ids, accepted, owner[p], valid);
      sentTo, accepted := sentTo[p := Entry(true, Some(valid))], accepted[owner[p] := [valid]];
      ok := true;
    }

    /** `stop`: the first call decides the error. */
    method Halt(e: Error)
      requires Core() && (e.None? ==> [true] in accepted)
      modifies this`stopped, this`err
      ensures Core() && stopped && err == if old(stopped) then old(err) else e
    {
      if !stopped {
        stopped, err := true, e;
      }
    }

    // ----- the loop -----

    /** `update`. */
    method Update(e: Event)
      modifies this`lastReqQueued, this`lastReqSentTo, this`reqSrtoCount
      ensures (lastReqQueued, lastReqSentTo, reqSrtoCount) ==
              old(Updated(lastReqQueued, lastReqSentTo, reqSrtoCount, e))
    {
      match e
      case Sent(p) => lastReqQueued, lastReqSentTo := false, Some(p);
      case NotSent => lastReqQueued, lastReqSentTo := false, None;
      case SoftTimeout(_) => lastReqSentTo, reqSrtoCount := None, reqSrtoCount + 1;
      case HardTimeout(_) => reqSrtoCount := reqSrtoCount - 1;
      case Delivered(p, _) =>
        if lastReqSentTo == Some(p) {
          lastReqSentTo := None;
        } else {
          reqSrtoCount := reqSrtoCount - 1;
        }
    }

    /** Take the oldest event and update the flags, which stay exact. */
    method Next() returns (e: Event)
      requires Core() && events != []
      modifies this`lastReqQueued, this`lastReqSentTo, this`reqSrtoCount, this`events, this`ids, this`views, this`taken
      ensures Core() && e == old(events)[0] && events == old(events)[1..] && taken == old(taken) + [e]
      ensures (lastReqQueued, lastReqSentTo, reqSrtoCount) ==
              old(Updated(lastReqQueued, lastReqSentTo, reqSrtoCount, e))
      ensures e.Sent? || e.NotSent? ==> old(lastReqQueued)
      ensures e.SoftTimeout? ==> !lastReqQueued && old(lastReqSentTo).Some?
      ensures e.Delivered? && e.valid ==> [true] in accepted
    {
      hide Exact, Evidence, Owned, Replied;
      e := events[0];
      UpdatedExact(lastReqQueued, lastReqSentTo, reqSrtoCount, views, ids[0], e);
      Foreseen(lastReqQueued, lastReqSentTo, reqSrtoCount, views, ids[0], e);
      EvidenceLess(events, ids, accepted);
      Update(e);
      views := views[ids[0] := Advance(views[ids[0]], e).value];
      events, ids, taken := events[1..], ids[1..], taken + [e];
    }

    /** `go r.tryRequest()`. */
    method Launch()
      requires Core() && !lastReqQueued && lastReqSentTo.None?
      modifies this`lastReqQueued, this`attempts, this`views, this`accepted
      ensures Core() && lastReqQueued && attempts == old(attempts) + [Queued]
    {
      hide Tracks, Exact, Evidence, Owned, Replied, Heard;
      TracksReal(views, events, ids, Actual(attempts));
      ExactLaunch(lastReqSentTo, reqSrtoCount, views);
      TracksLaunch(views, events, ids, Actual(attempts));
      assert Actual(attempts) + [Waiting] == Actual(attempts + [Queued]);
      Launched(attempts, sentTo, owner, accepted, events, ids);
      attempts, views, accepted, lastReqQueued := attempts + [Queued], views + [Waiting], accepted + [[]], true;
    }

    /** The event case of `stateRequesting`. */
    method StateRequesting()
      requires Valid() && state == Requesting && events != []
      modifies this
      ensures Valid() && events == old(events)[1..] && sentTo == old(sentTo)
      ensures var e := old(events)[0];
              && (e.NotSent? ==>
                    && attempts == old(attempts)
                    && if IsWaiting() then state == NoMorePeers else state == Exited && stopped)
              && (e.SoftTimeout? ==> attempts == old(attempts) + [Queued] && state == Requesting)
              && (GoodReply(e) ==> attempts == old(attempts) && state == Stopped && stopped)
              && (e.Delivered? && !e.valid ==>
                    && state == Requesting
                    && var again := !old(lastReqQueued) && old(lastReqSentTo) == Some(e.peer);
                       attempts == if again then old(attempts) + [Queued] else old(attempts))
              && (e.Sent? || e.HardTimeout? ==> attempts == old(attempts) && state == Requesting)
              && taken == old(taken) + [e] && calls == old(calls)
      ensures old(stopped) || state == Requesting || state == NoMorePeers ==> stopped == old(stopped) && err == old(err)
      ensures !old(stopped) && GoodReply(old(events)[0]) ==> err == None
      ensures !old(stopped) && state == Exited ==> err == ERR_NO_PEERS
    {
      hide Core, Decided;
      DecidedOn(state, stopped, err, taken, calls, events[0]);
      var e := Next();
      React(e);
    }

    /** What `stateRequesting` does after taking a report. */
    method React(e: Event)
      requires Core() && state == Requesting && (e.Sent? || e.HardTimeout? ==> lastReqQueued || lastReqSentTo.Some?)
      requires e.NotSent? ==> !lastReqQueued && lastReqSentTo.None?
      requires e.SoftTimeout? ==> !lastReqQueued && lastReqSentTo.None?
      requires GoodReply(e) ==> [true] in accepted
      modifies this`state, this`stopped, this`err, this`lastReqQueued, this`attempts, this`views, this`accepted
      ensures Core()
      ensures state == Requesting ==> lastReqQueued || lastReqSentTo.Some?
      ensures state == NoMorePeers || state == Exited ==> !lastReqQueued && lastReqSentTo.None?
      ensures state == Exited ==> reqSrtoCount <= 0
      ensures e.NotSent? ==>
                && attempts == old(attempts)
                && if IsWaiting() then state == NoMorePeers else state == Exited && stopped
      ensures e.SoftTimeout? ==> attempts == old(attempts) + [Queued] && state == Requesting
      ensures GoodReply(e) ==> attempts == old(attempts) && state == Stopped && stopped
      ensures e.Delivered? && !e.valid ==>
                && state == Requesting
                && attempts == if !old(lastReqQueued) && lastReqSentTo.None? then old(attempts) + [Queued]
                               else old(attempts)
      ensures e.Sent? || e.HardTimeout? ==> attempts == old(attempts) && state == Requesting
      ensures state == Requesting || state == NoMorePeers ==> stopped == old(stopped) && err == old(err)
      ensures GoodReply(e) ==> err == if old(stopped) then old(err) else None
      ensures state == Exited ==> stopped && err == if old(stopped) then old(err) else ERR_NO_PEERS
    {
      hide Core;
      match e
      case Sent(_) =>
      case NotSent =>
        if IsWaiting() {
          state := NoMorePeers;
        } else {
          Halt(ERR_NO_PEERS);
          state := Exited;
        }
      case SoftTimeout(_) => Launch();
      case HardTimeout(_) =>
      case Delivered(_, valid) =>
        if valid {
          Halt(None);
          state := Stopped;
        } else if !lastReqQueued && lastReqSentTo.None? {
          Launch();
        }
    }

    /** The retry timer of `stateNoMorePeers`. */
    method Retry()
      requires Valid() && state == NoMorePeers
      modifies this
      ensures Valid() && state == Requesting && attempts == old(attempts) + [Queued]
      ensures stopped == old(stopped) && err == old(err) && taken == old(taken) && calls == old(calls)
    {
      hide Core, Heard;
      Launch();
      state := Requesting;
    }

    /** The event case of `stateNoMorePeers`. */
    method StateNoMorePeers()
      requires Valid() && state == NoMorePeers && events != []
      modifies this
      ensures Valid() && events == old(events)[1..] && attempts == old(attempts) && sentTo == old(sentTo)
      ensures state == if old(events)[0].Delivered? && old(events)[0].valid then Stopped
                       else if IsWaiting() then NoMorePeers else Exited
      ensures taken == old(taken) + [old(events)[0]] && calls == old(calls) && (state != NoMorePeers ==> stopped)
      ensures old(stopped) || state == NoMorePeers ==> stopped == old(stopped) && err == old(err)
      ensures !old(stopped) && GoodReply(old(events)[0]) ==> err == None
      ensures !old(stopped) && state == Exited ==> err == ERR_NO_PEERS
    {
      hide Core, Decided;
      DecidedOn(state, stopped, err, taken, calls, events[0]);
      var e := Next();
      if e.Delivered? && e.valid {
        Halt(None);
        state := Stopped;
      } else if !IsWaiting() {
        Halt(ERR_NO_PEERS);
        state := Exited;
      }
    }

    /** `stateStopped`: keep taking events while waiting. */
    method StateStopped()
      requires Valid() && state == Stopped && (IsWaiting() ==> events != [])
      modifies this
      ensures Valid() && (state == Exited <==> !old(IsWaiting()))
      ensures stopped == old(stopped) && err == old(err) && calls == old(calls)
    {
      hide Core, Heard;
      if IsWaiting() {
        HeardMore(taken, events[0]);
        var _ := Next();
      } else {
        state := Exited;
      }
    }

    /** The caller's `stop`. */
    method Cancel(e: nat)
      requires Valid()
      modifies this`stopped, this`err, this`calls
      ensures Valid() && stopped && err == (if old(stopped) then old(err) else Some(e)) && calls == old(calls) + [e]
    {
      hide Core, Heard;
      Halt(Some(e));
      calls := calls + [e];
    }

    /** Take a step if it can be taken now. */
    method Perform(step: Step)
      requires Valid()
      modifies this
      ensures Valid() && calls == old(calls) + if step.DoCancel? then [step.e] else []
      ensures old(stopped) ==> stopped && err == old(err)
    {
      hide Core, Heard;
      match step
      case DoDispatch(i, p) => if i < |attempts| && attempts[i].Queued? && p !in sentTo { Dispatch(i, p); }
      case DoFail(i) => if i < |attempts| && attempts[i].Queued? { FailToSend(i); }
      case DoSent(i) => if i < |attempts| && attempts[i].Assigned? { ReportSent(i); }
      case DoReply(i) =>
        if i < |attempts| && (attempts[i].Fresh? || attempts[i].Soft?) &&
           attempts[i].peer in sentTo && sentTo[attempts[i].peer].reply.Some? {
          TakeReply(i);
        }
      case DoSoft(i) => if i < |attempts| && attempts[i].Fresh? { TimeOutSoft(i); }
      case DoHard(i) => if i < |attempts| && attempts[i].Soft? { TimeOutHard(i); }
      case DoLeave(i) => if i < |attempts| && attempts[i].Finished? { Leave(i); }
      case DoDeliver(p, valid) => var _ := Deliver(p, valid);
      case DoCancel(e) => Cancel(e);
      case DoLoop =>
        if state == Stopped && (IsWaiting() ==> events != []) {
          StateStopped();
        } else if state == Requesting && events != [] {
          StateRequesting();
        } else if state == NoMorePeers && events != [] {
          StateNoMorePeers();
        }
      case DoRetry => if state == NoMorePeers { Retry(); }
      case DoNotice => if stopped && state != Exited { state := Stopped; }
    }

    /**
     Any interleaving: the loop exits only when every attempt is over and every report taken, a
     nil error means that a reply passed validation, and no attempt accepts two replies. Unless the
     caller cancels, the error is nil exactly if the loop has taken a good reply.
     */
    method Run(steps: seq<Step>)
      requires Valid()
      modifies this
      ensures Valid() && calls == old(calls) + Cancels(steps) && (old(stopped) ==> stopped && err == old(err))
      ensures calls == [] ==> (stopped && err.None? <==> Heard(taken))
      ensures calls == [] && stopped && err.Some? ==> state == Exited && err == ERR_NO_PEERS
      ensures stopped && err.Some? ==> err == ERR_NO_PEERS || (calls != [] && err == Some(calls[0]))
      ensures state == Exited ==> events == []
      ensures state == Exited ==> forall i :: 0 <= i < |attempts| ==> attempts[i].Finished? || attempts[i].Gone?
      ensures stopped && err.None? ==> [true] in accepted
      ensures forall i :: 0 <= i < |accepted| ==> |accepted[i]| <= 1
    {
      hide Valid;
      for k := 0 to |steps|
        invariant Valid() && calls == old(calls) + Cancels(steps[..k]) && (old(stopped) ==> stopped && err == old(err))
      {
        assert steps[..k + 1][..k] == steps[..k];
        Perform(steps[k]);
      }
      assert steps[..|steps|] == steps;
      Outcome();
    }

    /** What the invariant says of the end of a retrieval. */
    lemma Outcome()
      requires Valid()
      ensures calls == [] ==> (stopped && err.None? <==> Heard(taken))
      ensures calls == [] && stopped && err.Some? ==> state == Exited && err == ERR_NO_PEERS
      ensures stopped && err.Some? ==> err == ERR_NO_PEERS || (calls != [] && err == Some(calls[0]))
      ensures state == Exited ==> events == []
      ensures state == Exited ==> forall i :: 0 <= i < |attempts| ==> attempts[i].Finished? || attempts[i].Gone?
      ensures stopped && err.None? ==> [true] in accepted
      ensures forall i :: 0 <= i < |accepted| ==> |accepted[i]| <= 1
    {
      hide Heard, Tracks, Exact, Owned, Evidence;
      if state == Exited {
        NothingOutstanding();
      }
    }
  }

  lemma OwnedMore(attempts: seq<Phase>, sentTo: map<Peer, Entry>, owner: map<Peer, nat>, accepted: seq<seq<bool>>,
                  i: nat, p: Peer)
    requires Owned(attempts, sentTo, owner) && Replied(attempts, sentTo, owner, accepted)
    requires i < |attempts| && attempts[i].Queued? && p !in sentTo
    ensures Owned(attempts[i := Assigned(p)], sentTo[p := Entry(false, None)], owner[p := i])
    ensures Replied(attempts[i := Assigned(p)], sentTo[p := Entry(false, None)], owner[p := i], accepted)
  {
  }

  lemma OwnedMove(attempts: seq<Phase>, sentTo: map<Peer, Entry>, owner: map<Peer, nat>, accepted: seq<seq<bool>>,
                  i: nat, ph: Phase)
    requires Owned(attempts, sentTo, owner) && Replied(attempts, sentTo, owner, accepted)
    requires i < |attempts| && !ph.Queued? && PeerOf(attempts[i]) == PeerOf(ph)
    ensures Owned(attempts[i := ph], sentTo, owner) && Replied(attempts[i := ph], sentTo, owner, accepted)
  {
  }

  lemma OwnedLess(attempts: seq<Phase>, sentTo: map<Peer, Entry>, owner: map<Peer, nat>, accepted: seq<seq<bool>>,
                  i: nat, p: Peer)
    requires Owned(attempts, sentTo, owner) && Replied(attempts, sentTo, owner, accepted)
    requires i < |attempts| && attempts[i] == Finished(p)
    ensures Owned(attempts[i := Gone], sentTo - {p}, owner - {p})
    ensures Replied(attempts[i := Gone], sentTo - {p}, owner - {p}, accepted)
  {
    assert PeerOf(attempts[i]) == Some(p);
    assert (owner - {p}).Keys == (sentTo - {p}).Keys;
  }

  lemma ReplyOf(attempts: seq<Phase>, sentTo: map<Peer, Entry>, owner: map<Peer, nat>, accepted: seq<seq<bool>>, i: nat,
                p: Peer)
    requires Owned(attempts, sentTo, owner) && Replied(attempts, sentTo, owner, accepted)
    requires i < |attempts| && At(attempts[i], p)
    ensures p in sentTo && |accepted| == |attempts|
    ensures sentTo[p].reply.Some? ==> accepted[i] == [sentTo[p].reply.value]
  {
  }

  lemma Taken(attempts: seq<Phase>, sentTo: map<Peer, Entry>, owner: map<Peer, nat>, accepted: seq<seq<bool>>, p: Peer)
    requires Owned(attempts, sentTo, owner) && Replied(attempts, sentTo, owner, accepted) && p in sentTo
    ensures Owned(attempts, sentTo[p := sentTo[p].(reply := None)], owner)
    ensures Replied(attempts, sentTo[p := sentTo[p].(reply := None)], owner, accepted)
  {
  }

  lemma Accepts(attempts: seq<Phase>, sentTo: map<Peer, Entry>, owner: map<Peer, nat>, accepted: seq<seq<bool>>,
                p: Peer, valid: bool)
    requires Owned(attempts, sentTo, owner) && Replied(attempts, sentTo, owner, accepted) && p in sentTo
    requires !sentTo[p].delivered
    ensures p in owner && owner[p] < |accepted| && accepted[owner[p]] == []
    ensures Owned(attempts, sentTo[p := Entry(true, Some(valid))], owner)
    ensures Replied(attempts, sentTo[p := Entry(true, Some(valid))], owner, accepted[owner[p] := [valid]])
  {
  }

  lemma EvidenceMore(events: seq<Event>, ids: seq<nat>, accepted: seq<seq<bool>>, i: nat, e: Event)
    requires Evidence(events, ids, accepted) && (e.Delivered? && e.valid ==> i < |accepted| && accepted[i] == [true])
    ensures Evidence(events + [e], ids + [i], accepted)
  {
  }

  lemma EvidenceStays(events: seq<Event>, ids: seq<nat>, accepted: seq<seq<bool>>, i: nat, valid: bool)
    requires Evidence(events, ids, accepted) && i < |accepted| && accepted[i] == []
    ensures Evidence(events, ids, accepted[i := [valid]])
    ensures [true] in accepted ==> [true] in accepted[i := [valid]]
  {
    if [true] in accepted {
      var k :| 0 <= k < |accepted| && accepted[k] == [true];
      assert accepted[i := [valid]][k] == [true];
    }
  }

  /** What an event tells about the flags before it. */
  lemma Foreseen(queued: bool, recent: Option<Peer>, late: int, views: seq<View>, i: nat, e: Event)
    requires Exact(queued, recent, late, views) && Good(views) && i < |views| && Advance(views[i], e).Some?
    ensures e.Sent? || e.NotSent? ==> queued
    ensures e.SoftTimeout? ==> !queued && recent.Some?
  {
  }

  lemma EvidenceLess(events: seq<Event>, ids: seq<nat>, accepted: seq<seq<bool>>)
    requires Evidence(events, ids, accepted) && events != []
    ensures Evidence(events[1..], ids[1..], accepted)
    ensures events[0].Delivered? && events[0].valid ==> [true] in accepted
  {
  }

  lemma ExactLaunch(recent: Option<Peer>, late: int, views: seq<View>)
    requires Exact(false, recent, late, views) && recent.None?
    ensures NoneActive(views) && Exact(true, recent, late, views + [Waiting])
  {
  }

  lemma Launched(attempts: seq<Phase>, sentTo: map<Peer, Entry>, owner: map<Peer, nat>, accepted: seq<seq<bool>>,
                 events: seq<Event>, ids: seq<nat>)
    requires Owned(attempts, sentTo, owner) && Replied(attempts, sentTo, owner, accepted)
    requires Evidence(events, ids, accepted)
    ensures Owned(attempts + [Queued], sentTo, owner) && Replied(attempts + [Queued], sentTo, owner, accepted + [[]])
    ensures Evidence(events, ids, accepted + [[]]) && ([true] in accepted ==> [true] in accepted + [[]])
  {
  }

  lemma SameViews(attempts: seq<Phase>, i: nat, ph: Phase)
    requires i < |attempts| && ViewOf(ph) == ViewOf(attempts[i])
    ensures Actual(attempts[i := ph]) == Actual(attempts)
  {
  }

  lemma OneEach(attempts: seq<Phase>, sentTo: map<Peer, Entry>, owner: map<Peer, nat>, j: nat, k: nat, p: Peer)
    requires Owned(attempts, sentTo, owner) && j < |attempts| && k < |attempts|
    requires Holds(ViewOf(attempts[j]), p) && Holds(ViewOf(attempts[k]), p)
    ensures j == k
  {
  }

  lemma StaysGood(attempts: seq<Phase>, sentTo: map<Peer, Entry>, owner: map<Peer, nat>, i: nat, ph: Phase)
    requires Good(Actual(attempts)) && i < |attempts| && Owned(attempts[i := ph], sentTo, owner)
    requires Active(ViewOf(ph)) ==> Active(ViewOf(attempts[i]))
    ensures Actual(attempts[i := ph]) == Actual(attempts)[i := ViewOf(ph)]
    ensures Good(Actual(attempts)[i := ViewOf(ph)])
  {
    hide Owned, ViewOf;
    var after, views := attempts[i := ph], Actual(attempts)[i := ViewOf(ph)];
    assert Actual(after) == views;
    forall j, k, p: Peer | 0 <= j < |views| && 0 <= k < |views| && Holds(views[j], p) && Holds(views[k], p)
      ensures j == k
    {
      OneEach(after, sentTo, owner, j, k, p);
    }
    forall j, k | 0 <= j < |views| && 0 <= k < |views| && Active(views[j]) && Active(views[k]) ensures j == k {
      assert Active(Actual(attempts)[j]) && Active(Actual(attempts)[k]);
    }
  }
}
