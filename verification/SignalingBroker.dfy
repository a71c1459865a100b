/** `Broker` as the imperative code runs it: a map of sessions and a map of one-token channels, both
    changed in place.  Each method is proved against the locked regions of the broker machine. */
module SignalingBroker {
  import opened Clock
  import opened OpaqueId
  import opened Options
  import opened Signaling
  import opened SignalingRuns

  datatype Verdict = Accepted | Invalid | NotFound | AlreadyClaimed

  /** The failure code pattern: 1 to 64 lower-case letters, digits and underscores. */
  predicate ValidCode(code: string) {
    1 <= |code| <= 64 && forall i :: 0 <= i < |code| ==> 'a' <= code[i] <= 'z' || '0' <= code[i] <= '9' || code[i] == '_'
  }

  class Broker {
    var sessions: Sessions
    var notifications: map<string, bool>

    ghost function Locked(): Core
      reads this
    {
      Core(sessions, notifications)
    }

    constructor ()
      ensures Locked() == START.core
    {
      sessions, notifications := map[], map[];
    }

    /** `pruneLocked`. */
    method Prune(now: int)
      modifies this`sessions
      ensures sessions == Pruned(old(sessions), now)
      ensures forall id :: id in old(sessions) ==> (id in sessions <==> now - old(sessions)[id].createdAt < 2 * MINUTE)
    {
      var todo := sessions.Keys;
      while todo != {}
        invariant todo <= sessions.Keys <= old(sessions).Keys
        invariant forall id :: id in sessions ==> sessions[id] == old(sessions)[id] && (id in todo || Live(sessions[id], now))
        invariant forall id :: id in old(sessions) && Live(old(sessions)[id], now) ==> id in sessions
        decreases todo
      {
        var id :| id in todo;
        todo := todo - {id};
        if now - sessions[id].createdAt >= TTL {
          sessions := sessions - {id};
        }
      }
    }

    method Create(request: Request, id: string, now: int) returns (ok: bool)
      modifies this
      ensures Locked() == DoCreate(old(Locked()), request, id, now)
      ensures ok <==> ValidRequest(request) && MayCreate(Pruned(old(sessions), now), request, now)
      ensures ok ==> id in sessions && sessions[id] == Fresh(request, now) && request.agent in notifications && notifications[request.agent]
      ensures !ok ==> notifications == old(notifications) && sessions.Keys <= old(sessions).Keys
    {
      if !ValidOpaqueId(request.agent) || !ValidOpaqueId(request.browserSession) || !ValidOpaqueId(request.service) {
        return false;
      }
      if Absent(request.user) || Absent(request.capability) {
        return false;
      }
      if !request.offerOk {
        return false;
      }
      Prune(now);
      if request.restartOf != "" {
        if request.restartOf !in sessions {
          return false;
        }
        var previous := sessions[request.restartOf];
        if previous.agent != request.agent || previous.browserSession != request.browserSession || previous.service != request.service
           || previous.user != request.user || previous.capability != request.capability || previous.temporary != request.temporary {
          return false;
        }
      }
      sessions := sessions[id := Fresh(request, now)];
      notifications := notifications[request.agent := true];
      return true;
    }

    /** One pass of the loop of `Next` under the lock: claim an oldest waiting offer, or make sure there
        is a channel to wait on. */
    method Scan(agent: string, now: int) returns (offer: Option<Offer>)
      modifies this
      ensures offer.Some? ==>
        && Oldest(Pruned(old(sessions), now), agent, offer.value.id)
        && Locked() == DoClaim(old(Locked()), offer.value.id, now)
        && offer.value == OfferOf(offer.value.id, old(sessions)[offer.value.id])
        && offer.value.id in sessions && sessions[offer.value.id].claimed && !old(sessions)[offer.value.id].claimed
      ensures offer.None? ==>
        && NothingWaits(Pruned(old(sessions), now), agent)
        && Locked() == DoPark(old(Locked()), agent, now)
    {
      Prune(now);
      var selected: Option<string> := None;
      var todo := sessions.Keys;
      while todo != {}
        invariant todo <= sessions.Keys && sessions == Pruned(old(sessions), now) && notifications == old(notifications)
        invariant selected.Some? ==> selected.value in sessions && Waiting(sessions[selected.value], agent)
        invariant forall id :: id in sessions && id !in todo && Waiting(sessions[id], agent) ==>
          selected.Some? && sessions[selected.value].createdAt <= sessions[id].createdAt
        decreases todo
      {
        var id :| id in todo;
        todo := todo - {id};
        var current := sessions[id];
        if current.agent == agent && !current.claimed && current.outcome.Pending?
           && (selected.None? || current.createdAt < sessions[selected.value].createdAt) {
          selected := Some(id);
        }
      }
      if selected.Some? {
        var id := selected.value;
        offer := Some(OfferOf(id, sessions[id]));
        sessions := sessions[id := sessions[id].(claimed := true)];
        return;
      }
      if agent !in notifications {
        notifications := notifications[agent := false];
      }
      return None;
    }

    method Finish(agent: string, id: string, answer: Option<string>, answerOk: bool, code: string, now: int) returns (verdict: Verdict)
      modifies this`sessions
      ensures verdict == Invalid <==> (answer.None? == (code == "")) || (answer.Some? && !answerOk) || (code != "" && !ValidCode(code))
      ensures verdict == Invalid ==> sessions == old(sessions)
      ensures verdict != Invalid ==>
        && (verdict == Accepted <==> MayFinish(Pruned(old(sessions), now), agent, id))
        && (verdict == NotFound <==> id !in Pruned(old(sessions), now) || old(sessions)[id].agent != agent)
        && Locked() == DoFinish(old(Locked()), agent, id, if answer.Some? then Answered(answer.value) else Failed(code), now)
      // the answer is stored as an answer and the failure as a failure, and nothing else changes but what expired
      ensures verdict == Accepted ==>
        && id in sessions && id in old(sessions) && sessions[id].claimed
        && sessions[id].outcome == (if answer.Some? then Answered(answer.value) else Failed(code))
      ensures verdict != Invalid ==>
        forall x :: x in old(sessions) && now - old(sessions)[x].createdAt < 2 * MINUTE && (x != id || verdict != Accepted) ==>
          x in sessions && sessions[x] == old(sessions)[x]
    {
      if answer.None? == (code == "") {
        return Invalid;
      }
      if answer.Some? && !answerOk {
        return Invalid;
      }
      if code != "" && !ValidCode(code) {
        return Invalid;
      }
      Prune(now);
      if id !in sessions || sessions[id].agent != agent {
        return NotFound;
      }
      if !sessions[id].claimed || !sessions[id].outcome.Pending? {
        return AlreadyClaimed;
      }
      var outcome := if answer.Some? then Answered(answer.value) else Failed(code);
      sessions := sessions[id := sessions[id].(outcome := outcome)];
      return Accepted;
    }

    /** A user sees the outcome of their own live offers and nothing else. */
    method Status(id: string, user: Digest, now: int) returns (status: Option<Outcome>)
      modifies this`sessions
      ensures sessions == Pruned(old(sessions), now)
      ensures status.Some? <==> id in old(sessions) && now - old(sessions)[id].createdAt < 2 * MINUTE && old(sessions)[id].user == user
      ensures status.Some? ==> status.value == old(sessions)[id].outcome
    {
      Prune(now);
      if id !in sessions || sessions[id].user != user {
        return None;
      }
      return Some(sessions[id].outcome);
    }
  }
}
