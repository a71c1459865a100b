/** Exactly what happens to services and sessions: which step retires a temporary service, and when a call
    that nobody interrupts succeeds.  All in terms of when leases really began and were renewed. */
module SessionExact {
  import opened Clock
  import opened Options
  import opened Store
  import opened Sessions
  import opened SessionSteps
  import opened SessionRuns
  import opened SessionService

  /** Both limits of a lease are ahead: 30 minutes after its renewal and two hours after it began, each cut to
      the second. */
  predicate Ahead(born: int, renewed: int, now: int) {
    Unix(now) < Unix(renewed + 30 * MINUTE) && Unix(now) < Unix(born + 2 * HOUR)
  }

  // ----- services -----

  /** When the step runs the sweep of expired services, if it does. */
  function SweepTime(s: Sys, step: Step): Option<int> {
    match step
    case ExpireAll(now) => Some(now)
    case Go(tid) => if tid in s.threads && WellStaged(s.threads[tid]) && s.threads[tid].stage.Sweep? then Some(s.threads[tid].now) else None
    case _ => None
  }

  predicate Ends(s: Sys, step: Step, id: string, owner: Digest)
    requires id in s.leaseBorn && id in s.leaseRenewed
  {
    step == RevokeOwned(owner) || (SweepTime(s, step).Some? && !Ahead(s.leaseBorn[id], s.leaseRenewed[id], SweepTime(s, step).value))
  }

  lemma OwnedIsLeased(s: Sys, id: string)
    requires TablesOk(s) && id in s.db.services && s.db.services[id].owner.Some?
    ensures id in s.temporary && id in s.leaseBorn && id in s.leaseRenewed
    ensures Leased(s.db.services[id], s.leaseBorn[id], s.leaseRenewed[id])
  {
  }

  /** A sweep retires a leased service exactly if one of its limits has passed. */
  lemma OverdueExactly(row: ServiceRow, born: int, renewed: int, now: int)
    requires Leased(row, born, renewed)
    ensures Overdue(row, Unix(now)) <==> !Ahead(born, renewed, now)
  {
  }

  lemma SweepEnds(db: Db, id: string, born: int, renewed: int, now: int)
    requires id in db.services && Leased(db.services[id], born, renewed)
    ensures var row := ExpireServices(db, now).services[id];
      if Ahead(born, renewed, now) then row == db.services[id] else Dead(row)
  {
    OverdueExactly(db.services[id], born, renewed, now);
  }

  /** The row is as it was, but perhaps for a new idle limit. */
  predicate Kept(a: ServiceRow, b: ServiceRow) {
    b == a.(expiresAt := b.expiresAt)
  }

  lemma GoEnds(s: Sys, tid: nat, id: string)
    requires TablesOk(s) && tid in s.threads && WellStaged(s.threads[tid]) && id in s.db.services && s.db.services[id].owner.Some?
    requires !s.threads[tid].stage.Sweep?
    ensures id in Apply(s, Go(tid)).db.services && Kept(s.db.services[id], Apply(s, Go(tid)).db.services[id])
  {
    var t := s.threads[tid];
    if t.stage.Commit? {
      CommitLeavesServices(s, t);
    } else if !t.stage.Renew? {
      ReadsOnly(s, t);
    }
  }

  lemma SweepStepEnds(s: Sys, tid: nat, id: string)
    requires TablesOk(s) && tid in s.threads && WellStaged(s.threads[tid]) && s.threads[tid].stage.Sweep?
    ensures Apply(s, Go(tid)).db == ExpireServices(s.db, s.threads[tid].now)
  {
    SweepOnly(s, s.threads[tid]);
  }

  /** The steps that are not about one call. */
  lemma PlainEnds(s: Sys, step: Step, id: string)
    requires id in s.db.services && !step.Go? && !step.ExpireAll? && !step.RevokeOwned?
    ensures id in Apply(s, step).db.services && Apply(s, step).db.services[id] == s.db.services[id]
  {
  }

  lemma RevokeEnds(db: Db, owner: Digest, id: string)
    requires id in db.services && (db.services[id].owner.Some? ==> db.services[id].enabled)
    ensures var row := RevokeServices(db, owner).services[id];
      if db.services[id].owner == Some(owner) then Dead(row) else row == db.services[id]
  {
  }

  /** In any reachable state, a step retires a temporary service if and only if it revokes the services of its
      own owner, or sweeps when one of the service's own limits has passed.  Otherwise the service stays as
      it is, but perhaps for its idle limit. */
  lemma RetiredExactly(s: Sys, step: Step, id: string, owner: Digest)
    requires Inv(s) && id in s.db.services && s.db.services[id].owner == Some(owner)
    ensures id in s.leaseBorn && id in s.leaseRenewed && id in Apply(s, step).db.services
    ensures if Ends(s, step, id, owner) then Dead(Apply(s, step).db.services[id])
            else Kept(s.db.services[id], Apply(s, step).db.services[id])
  {
    OwnedIsLeased(s, id);
    match step
    case ExpireAll(now) => SweepEnds(s.db, id, s.leaseBorn[id], s.leaseRenewed[id], now);
    case RevokeOwned(who) => RevokeEnds(s.db, who, id);
    case Go(tid) =>
      if tid in s.threads && WellStaged(s.threads[tid]) {
        if s.threads[tid].stage.Sweep? {
          SweepStepEnds(s, tid, id);
          SweepEnds(s.db, id, s.leaseBorn[id], s.leaseRenewed[id], s.threads[tid].now);
        } else {
          GoEnds(s, tid, id);
        }
      }
    case _ => PlainEnds(s, step, id);
  }

  /** Logging out, the services: nobody's service but the user's is touched, and all of the user's are
      disabled and ownerless. */
  lemma RevokeOwnedExactly(steps: seq<Step>, owner: Digest)
    ensures var s := Run(steps); var t := Apply(s, RevokeOwned(owner));
      && t.db.services.Keys == s.db.services.Keys && t.db.sessions == s.db.sessions
      && forall id :: id in s.db.services ==>
           if s.db.services[id].owner == Some(owner) then !t.db.services[id].enabled && t.db.services[id].owner.None?
           else t.db.services[id] == s.db.services[id]
  {
    RunInv(steps);
    var s := Run(steps);
    forall id | id in s.db.services
      ensures var row := Apply(s, RevokeOwned(owner)).db.services[id];
        if s.db.services[id].owner == Some(owner) then Dead(row) else row == s.db.services[id]
    {
      if s.db.services[id].owner.Some? { OwnedIsLeased(s, id); }
      RevokeEnds(s.db, owner, id);
    }
  }

  /** And they are gone for good: in every continuation no service that the user owned is listed, authorised
      or renewed again, for anybody and at any time, by calls under way included. */
  lemma LogoutEndsServices(before: seq<Step>, owner: Digest, after: seq<Step>, id: string, user: Digest, now: int)
    requires var s := Run(before); id in s.db.services && s.db.services[id].owner == Some(owner)
    ensures var t := RunFrom(Apply(Run(before), RevokeOwned(owner)), after);
      && !InDirectory(t.db, id) && SelectService(t.db, id, user, now).None?
      && forall next :: RenewService(t.db, id, user, now, next).None?
  {
    var s := Run(before);
    RunInv(before);
    OwnedIsLeased(s, id);
    RetiredExactly(s, RevokeOwned(owner), id, owner);
    StepInv(s, RevokeOwned(owner));
    DeadStaysDead(Apply(s, RevokeOwned(owner)), after, id);
  }

  // ----- calls that nobody interrupts -----

  /** The user may use the service: it is an enabled permanent one, or their own temporary one with both limits
      ahead. */
  predicate MayUse(s: Sys, id: string, user: Digest, now: int) {
    && id in s.db.services
    && if id !in s.temporary then s.db.services[id].enabled
       else s.db.services[id].owner == Some(user) && id in s.leaseBorn && id in s.leaseRenewed && Ahead(s.leaseBorn[id], s.leaseRenewed[id], now)
  }

  /** A service can be made: its identifier and slug are free and its agent exists. */
  predicate MayMake(db: Db, id: string, agent: string, slug: string) {
    id !in db.services && agent in db.agents && forall other :: other in db.services ==> db.services[other].slug != slug
  }

  /** A permanent service that is made is everybody's if it is enabled, and no other row changes. */
  lemma MadeForAll(s: Sys, id: string, agent: string, slug: string, enabled: bool, user: Digest, now: int)
    requires TablesOk(s)
    ensures var t := Apply(s, MakeService(id, agent, slug, enabled));
      if MayMake(s.db, id, agent, slug) then
        && (MayUse(t, id, user, now) <==> enabled) && t.db.services.Keys == s.db.services.Keys + {id}
        && t.db.services[id].agent == agent && t.db.services[id].slug == slug
        && (forall other :: other in s.db.services ==> t.db.services[other] == s.db.services[other])
      else t == s
  {
  }

  /** A temporary service that is made is its owner's alone, for as long as both limits are ahead. */
  lemma MadeForOne(s: Sys, id: string, agent: string, slug: string, owner: Digest, now: int, user: Digest, later: int)
    requires TablesOk(s)
    ensures var t := Apply(s, MakeTemporary(id, agent, slug, owner, now));
      if MayMake(s.db, id, agent, slug) then
        && (MayUse(t, id, user, later) <==> user == owner && Ahead(now, now, later)) && t.db.services.Keys == s.db.services.Keys + {id}
        && t.db.services[id].agent == agent && t.db.services[id].slug == slug
        && (forall other :: other in s.db.services ==> t.db.services[other] == s.db.services[other])
      else t == s
  {
  }

  /** What the sweep leaves of a service, as its SELECT reads it. */
  lemma SweptRow(s: Sys, id: string, user: Digest, now: int)
    requires TablesOk(s) && id in s.db.services
    ensures var row := ExpireServices(s.db, now).services[id];
      && (Authorizes(row, user, Unix(now)) <==> MayUse(s, id, user, now))
      && (Authorizes(row, user, Unix(now)) ==> row == s.db.services[id] && (row.owner.Some? <==> id in s.temporary))
  {
    if id in s.temporary && s.db.services[id].owner.Some? {
      SweepEnds(s.db, id, s.leaseBorn[id], s.leaseRenewed[id], now);
    }
  }

  /** `AuthorizedService` without interruption succeeds exactly for those who may use the service, and changes
      nothing but idle limits and expired services. */
  lemma AuthorizeExactly(s: Sys, id: string, user: Digest, now: int)
    requires TablesOk(s)
    ensures var (after, target) := Authorize(s.db, id, user, now);
      && after.sessions == s.db.sessions && after.agents == s.db.agents && after.services.Keys == s.db.services.Keys
      && (target.Some? <==> MayUse(s, id, user, now))
      && (target.Some? ==> target.value.agent == s.db.services[id].agent && (target.value.temporary <==> id in s.temporary))
  {
    var swept := ExpireServices(s.db, now);
    if id in s.db.services {
      SweptRow(s, id, user, now);
      if SelectService(swept, id, user, now).Some? && SelectService(swept, id, user, now).value.temporary {
        RenewalSucceedsAlone(swept, id, user, now);
      }
    }
  }

  /** The session is the user's, under this capability, unrevoked and with both limits ahead. */
  predicate Holds(s: Sys, id: string, user: Digest, presented: Digest, now: int) {
    && id in s.db.sessions && id in s.born && id in s.renewed
    && s.db.sessions[id].user == user && s.db.sessions[id].token == presented && s.db.sessions[id].revokedAt.None?
    && Ahead(s.born[id], s.renewed[id], now)
  }

  lemma SelectedExactly(s: Sys, id: string, user: Digest, presented: Digest, now: int)
    requires TablesOk(s)
    ensures var r := SelectSession(s.db, id, user, now);
      (r.Some? && r.value.token == presented)
        <==> Holds(s, id, user, presented, now) && s.db.sessions[id].service in s.db.services && s.db.services[s.db.sessions[id].service].enabled
  {
    if id in s.db.sessions {
      assert SessionOk(s.db.sessions[id], s.db.services, s.born[id], s.renewed[id]);
    }
  }

  lemma TouchAlone(s: Sys, db: Db, id: string, user: Digest, presented: Digest, now: int)
    requires TablesOk(s) && db.sessions == s.db.sessions && Holds(s, id, user, presented, now)
    ensures TouchSession(db, id, user, now, Clamp(now, s.db.sessions[id].absoluteAt * SECOND)).Some?
  {
    assert SessionOk(s.db.sessions[id], s.db.services, s.born[id], s.renewed[id]);
    ClampRenews(s.born[id], now);
  }

  predicate UsableSession(s: Sys, id: string, user: Digest, presented: Digest, now: int) {
    Holds(s, id, user, presented, now) && MayUse(s, s.db.sessions[id].service, user, now)
  }

  lemma MayUseEnabled(s: Sys, id: string, user: Digest, now: int)
    requires TablesOk(s) && MayUse(s, id, user, now)
    ensures s.db.services[id].enabled
  {
  }

  lemma LookupBegins(s: Sys, id: string, user: Digest, presented: Digest, now: int)
    requires TablesOk(s)
    ensures var t := Thread(Call.Lookup(id, presented), user, now, Begin); var found := SelectSession(s.db, id, user, now);
      Alone(s.db, t) == if found.None? || found.value.token != presented then (s.db, None)
                        else Alone(s.db, t.(stage := Sweep(found)))
  {
    var t := Thread(Call.Lookup(id, presented), user, now, Begin);
    var u := Advance(s.db, t).1;
    assert Alone(s.db, t) == Alone(s.db, u);
  }

  lemma LookupEnds(s: Sys, db: Db, id: string, user: Digest, presented: Digest, now: int, found: Record, target: Target)
    requires TablesOk(s) && db.sessions == s.db.sessions && Holds(s, id, user, presented, now)
    requires found == RecordOf(id, s.db.sessions[id], target.temporary) && target.agent == found.agent
    ensures var t := Thread(Call.Lookup(id, presented), user, now, Sweep(Some(found)));
      Alone(db, Authorized(t, target)).1 == Some(found.(lastSeen := now, expires := Clamp(now, found.absolute)))
  {
    var t := Thread(Call.Lookup(id, presented), user, now, Sweep(Some(found)));
    var c := Authorized(t, target);
    assert c == t.(stage := Commit(Some(found), target));
    TouchAlone(s, db, id, user, presented, now);
    var (after, u) := Advance(db, c);
    assert Alone(db, c) == Alone(after, u);
  }

  /** A Lookup that nobody interrupts succeeds if and only if the session is the user's, unrevoked, presented
      with its own capability and with both limits ahead, and the user may use its service; and then it
      returns the session's own agent and service. */
  lemma LookupExactly(s: Sys, id: string, user: Digest, presented: Digest, now: int)
    requires Inv(s)
    ensures var r := Alone(s.db, Thread(Call.Lookup(id, presented), user, now, Begin)).1;
      && (r.Some? <==> UsableSession(s, id, user, presented, now))
      && (r.Some? ==> && r.value.id == id && r.value.user == user && r.value.token == presented
                      && r.value.agent == s.db.sessions[id].agent && r.value.service == s.db.sessions[id].service
                      && (r.value.temporary <==> r.value.service in s.temporary) && r.value.lastSeen == now)
  {
    SelectedExactly(s, id, user, presented, now);
    LookupBegins(s, id, user, presented, now);
    var found := SelectSession(s.db, id, user, now);
    if found.Some? && found.value.token == presented {
      var t := Thread(Call.Lookup(id, presented), user, now, Sweep(found));
      var service := s.db.sessions[id].service;
      FoundIsTrue(s, id, user, now);
      AloneAuthorizes(s.db, t);
      AuthorizeExactly(s, service, user, now);
      var (after, target) := Authorize(s.db, service, user, now);
      if target.Some? {
        LookupEnds(s, after, id, user, presented, now, found.value, target.value);
      }
    } else if UsableSession(s, id, user, presented, now) {
      MayUseEnabled(s, s.db.sessions[id].service, user, now);
    }
  }

  lemma CreateBegins(db: Db, t: Thread)
    requires t.call.Create? && t.stage.Begin?
    ensures Alone(db, t) == Alone(db, t.(stage := Sweep(None)))
  {
    assert Advance(db, t) == (db, t.(stage := Sweep(None)));
  }

  lemma CreateEnds(db: Db, t: Thread, target: Target)
    requires t.call.Create? && t.stage == Sweep(None)
    ensures Alone(db, Authorized(t, target)).1
         == if InsertSession(db, Built(t, target), t.call.later).Some? then Some(Built(t, target)) else None
  {
    var c := Authorized(t, target);
    assert c == t.(stage := Commit(None, target));
    var (after, u) := Advance(db, c);
    assert Alone(db, c) == Alone(after, u);
  }

  /** A Create that nobody interrupts succeeds if and only if the user may use the service, its agent exists and
      the random identifier and token are new; the session starts with 30 minutes and two hours. */
  lemma CreateExactly(s: Sys, service: string, newId: string, newToken: Digest, user: Digest, now: int, later: int)
    requires Inv(s)
    ensures var r := Alone(s.db, Thread(Call.Create(service, newId, newToken, later), user, now, Begin)).1;
      && (r.Some? <==> && MayUse(s, service, user, now) && s.db.services[service].agent in s.db.agents && newId !in s.db.sessions
                       && (forall id :: id in s.db.sessions ==> s.db.sessions[id].token != newToken))
      && (r.Some? ==> r.value == Record(newId, newToken, user, s.db.services[service].agent, service, service in s.temporary,
                                        later, later + 30 * MINUTE, later + 2 * HOUR))
  {
    var t := Thread(Call.Create(service, newId, newToken, later), user, now, Begin);
    CreateBegins(s.db, t);
    AloneAuthorizes(s.db, t.(stage := Sweep(None)));
    AuthorizeExactly(s, service, user, now);
    var (after, target) := Authorize(s.db, service, user, now);
    if target.Some? {
      CreateEnds(after, t.(stage := Sweep(None)), target.value);
    }
  }

  // ----- renewals -----

  /** The renewed idle limit: 30 minutes from now or the absolute limit, whichever comes first, in seconds. */
  function NewLimit(born: int, now: int): int {
    if Unix(now + 30 * MINUTE) <= Unix(born + 2 * HOUR) then Unix(now + 30 * MINUTE) else Unix(born + 2 * HOUR)
  }

  /** Using a temporary service moves its idle limit there. */
  lemma AuthorizeRenews(s: Sys, id: string, user: Digest, now: int)
    requires TablesOk(s) && MayUse(s, id, user, now)
    ensures var (after, target) := Authorize(s.db, id, user, now);
      && id in after.services
      && after.services[id] == if id in s.temporary then s.db.services[id].(expiresAt := Some(NewLimit(s.leaseBorn[id], now))) else s.db.services[id]
  {
    SweptRow(s, id, user, now);
    var swept := ExpireServices(s.db, now);
    if id in s.temporary {
      OwnedIsLeased(s, id);
      ClampRenews(s.leaseBorn[id], now);
      RenewalSucceedsAlone(swept, id, user, now);
    }
  }

  /** A successful Lookup moves the session's idle limit there, and its service's too if that is temporary; no
      other session changes. */
  lemma LookupRenews(s: Sys, id: string, user: Digest, presented: Digest, now: int)
    requires Inv(s) && UsableSession(s, id, user, presented, now)
    ensures var after := Alone(s.db, Thread(Call.Lookup(id, presented), user, now, Begin)).0;
      after.sessions == s.db.sessions[id := s.db.sessions[id].(lastSeenAt := Unix(now), expiresAt := NewLimit(s.born[id], now))]
    ensures var after := Alone(s.db, Thread(Call.Lookup(id, presented), user, now, Begin)).0; var service := s.db.sessions[id].service;
      && service in after.services
      && after.services[service] == if service in s.temporary then s.db.services[service].(expiresAt := Some(NewLimit(s.leaseBorn[service], now)))
                                    else s.db.services[service]
  {
    var service := s.db.sessions[id].service;
    SelectedExactly(s, id, user, presented, now);
    MayUseEnabled(s, service, user, now);
    LookupBegins(s, id, user, presented, now);
    var found := SelectSession(s.db, id, user, now);
    FoundIsTrue(s, id, user, now);
    AloneAuthorizes(s.db, Thread(Call.Lookup(id, presented), user, now, Sweep(found)));
    AuthorizeExactly(s, service, user, now);
    AuthorizeRenews(s, service, user, now);
    var (after, target) := Authorize(s.db, service, user, now);
    TouchWrites(s, after, id, user, presented, now, found.value, target.value);
  }

  lemma TouchWrites(s: Sys, db: Db, id: string, user: Digest, presented: Digest, now: int, found: Record, target: Target)
    requires TablesOk(s) && db.sessions == s.db.sessions && Holds(s, id, user, presented, now)
    requires found == RecordOf(id, s.db.sessions[id], target.temporary) && target.agent == found.agent
    ensures var t := Thread(Call.Lookup(id, presented), user, now, Sweep(Some(found)));
      Alone(db, Authorized(t, target)).0
        == db.(sessions := db.sessions[id := db.sessions[id].(lastSeenAt := Unix(now), expiresAt := NewLimit(s.born[id], now))])
  {
    var t := Thread(Call.Lookup(id, presented), user, now, Sweep(Some(found)));
    var c := Authorized(t, target);
    assert c == t.(stage := Commit(Some(found), target));
    TouchAlone(s, db, id, user, presented, now);
    LimitIsClamp(s, id, now);
    var (after, u) := Advance(db, c);
    assert Alone(db, c) == Alone(after, u);
  }

  lemma LimitIsClamp(s: Sys, id: string, now: int)
    requires TablesOk(s) && id in s.db.sessions
    ensures id in s.born && Unix(Clamp(now, s.db.sessions[id].absoluteAt * SECOND)) == NewLimit(s.born[id], now)
  {
    assert SessionOk(s.db.sessions[id], s.db.services, s.born[id], s.renewed[id]);
    ClampRenews(s.born[id], now);
  }
}
