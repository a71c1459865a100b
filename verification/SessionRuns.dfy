/** Theorems about every interleaving of session calls: leases, revocation, wrong capabilities and
    temporary services that stay dead. */
module SessionRuns {
  import opened Clock
  import opened Options
  import opened Store
  import opened Sessions
  import opened SessionSteps

  // ----- two-level leases -----

  /** What whole-second limits mean on the real clock. */
  lemma LeaseBounds(expiresAt: int, absoluteAt: int, born: int, renewed: int, now: int)
    requires Lease(expiresAt, absoluteAt, born, renewed)
    ensures expiresAt <= absoluteAt
    ensures expiresAt > Unix(now) ==> now < born + ABSOLUTE && now < renewed + IDLE
  {
  }

  /** The thread's next statement is a renewal that will succeed. */
  predicate Touches(s: Sys, t: Thread) {
    WellStaged(t) && t.call.Lookup? && t.stage.Commit?
    && TouchSession(s.db, t.call.id, t.user, t.now, Clamp(t.now, t.stage.found.value.absolute)).Some?
  }

  predicate RenewsLease(s: Sys, t: Thread) {
    WellStaged(t) && t.stage.Renew?
    && RenewService(s.db, ServiceOf(t), t.user, t.now, Clamp(t.now, t.stage.target.absolute)).Some?
  }

  /** In every interleaving, a Lookup that succeeds does so less than two hours after the session was
      created and less than 30 minutes after its previous renewal, by the real clock. */
  lemma LookupInTime(steps: seq<Step>, tid: nat)
    requires var s := Run(steps); tid in s.threads && Touches(s, s.threads[tid])
    ensures var s := Run(steps); var t := s.threads[tid];
      && t.call.id in s.born && t.call.id in s.renewed
      && t.now < s.born[t.call.id] + ABSOLUTE && t.now < s.renewed[t.call.id] + IDLE
  {
    RunInv(steps);
    var s := Run(steps);
    var t := s.threads[tid];
    var row := s.db.sessions[t.call.id];
    assert SessionOk(row, s.db.services, s.born[t.call.id], s.renewed[t.call.id]);
    LeaseBounds(row.expiresAt, row.absoluteAt, s.born[t.call.id], s.renewed[t.call.id], t.now);
  }

  /** The same for a temporary service, and only for its owner. */
  lemma ServiceInTime(steps: seq<Step>, tid: nat)
    requires var s := Run(steps); tid in s.threads && RenewsLease(s, s.threads[tid])
    ensures var s := Run(steps); var t := s.threads[tid]; var id := ServiceOf(t);
      && id in s.leaseBorn && id in s.leaseRenewed && id in s.db.services && s.db.services[id].owner == Some(t.user)
      && t.now < s.leaseBorn[id] + ABSOLUTE && t.now < s.leaseRenewed[id] + IDLE
  {
    RunInv(steps);
    var s := Run(steps);
    var t := s.threads[tid];
    var id := ServiceOf(t);
    EnabledKind(s, id);
    var row := s.db.services[id];
    LeaseBounds(row.expiresAt.value, row.absoluteAt.value, s.leaseBorn[id], s.leaseRenewed[id], t.now);
  }

  /** In every state, every limit pair is ordered. */
  lemma LimitsOrdered(steps: seq<Step>)
    ensures var s := Run(steps);
      && (forall id :: id in s.db.sessions ==> s.db.sessions[id].expiresAt <= s.db.sessions[id].absoluteAt)
      && (forall id :: id in s.db.services && s.db.services[id].owner.Some? ==>
            && s.db.services[id].enabled && s.db.services[id].expiresAt.Some? && s.db.services[id].absoluteAt.Some?
            && s.db.services[id].expiresAt.value <= s.db.services[id].absoluteAt.value)
  {
    RunInv(steps);
    var s := Run(steps);
    forall id | id in s.db.sessions
      ensures s.db.sessions[id].expiresAt <= s.db.sessions[id].absoluteAt
    {
      assert SessionOk(s.db.sessions[id], s.db.services, s.born[id], s.renewed[id]);
    }
  }

  /** The absolute limit of a session never moves, and that of a temporary service not while it lives. */
  lemma AbsoluteLimitFixed(before: seq<Step>, after: seq<Step>, id: string)
    ensures var s, t := Run(before), Run(before + after);
      && (id in s.db.sessions ==> id in t.db.sessions && t.db.sessions[id].absoluteAt == s.db.sessions[id].absoluteAt)
      && (id in s.db.services && id in t.db.services && s.db.services[id].owner.Some? && t.db.services[id].owner.Some? ==>
            t.db.services[id].absoluteAt == s.db.services[id].absoluteAt)
  {
    RunInv(before);
    RunInv(before + after);
    RunAppend(START, before, after);
    RunGrows(Run(before), after);
    var s, t := Run(before), Run(before + after);
    if id in s.db.sessions {
      assert SameRow(s.db.sessions[id], t.db.sessions[id]);
    }
  }

  /** The touch's guard on the absolute limit never rejects a clamped renewal: a Lookup that reaches
      its touch fails there exactly if the session was revoked or its idle limit has passed. */
  lemma TouchExactly(steps: seq<Step>, tid: nat)
    requires var s := Run(steps); tid in s.threads && s.threads[tid].call.Lookup? && s.threads[tid].stage.Commit?
    ensures var s := Run(steps); var t := s.threads[tid];
      && t.call.id in s.db.sessions
      && (Touches(s, t) <==> s.db.sessions[t.call.id].revokedAt.None? && s.db.sessions[t.call.id].expiresAt > Unix(t.now))
  {
    RunInv(steps);
    var s := Run(steps);
    var t := s.threads[tid];
    assert ThreadOk(s, t);
    assert SessionOk(s.db.sessions[t.call.id], s.db.services, s.born[t.call.id], s.renewed[t.call.id]);
    ClampRenews(s.born[t.call.id], t.now);
  }

  // ----- revocation -----

  /** The Lookup call of thread `tid` on session `id` has succeeded. */
  predicate Succeeded(s: Sys, tid: nat, id: string) {
    tid in s.threads && s.threads[tid].call.Lookup? && s.threads[tid].call.id == id
    && s.threads[tid].stage.Finished? && s.threads[tid].stage.result.Some?
  }

  /** No statement of a Lookup of a revoked session brings it to success. */
  lemma RevokedGo(s: Sys, t: Thread)
    requires ThreadOk(s, t) && t.call.Lookup? && !t.stage.Finished?
    requires t.call.id in s.db.sessions && s.db.sessions[t.call.id].revokedAt.Some?
    ensures var u := Advance(s.db, t).1; u.stage.Finished? ==> u.stage.result.None?
  {
  }

  lemma RevokedStep(s: Sys, step: Step, tid: nat, id: string)
    requires Inv(s) && id in s.db.sessions && s.db.sessions[id].revokedAt.Some?
    ensures Succeeded(Apply(s, step), tid, id) ==> Succeeded(s, tid, id)
  {
    if step == Go(tid) {
      if tid in s.threads && !s.threads[tid].stage.Finished? && s.threads[tid].call.Lookup? && s.threads[tid].call.id == id {
        RevokedGo(s, s.threads[tid]);
      }
    } else if tid in Apply(s, step).threads {
      OtherThreads(s, step, tid);
    }
  }

  /** Once a session is revoked, no Lookup of it succeeds any more, however far the call had come:
      in any continuation, whatever has succeeded had succeeded before.  Revocation is permanent. */
  lemma {:induction false} RevokedForGood(s: Sys, steps: seq<Step>, tid: nat, id: string)
    requires Inv(s) && id in s.db.sessions && s.db.sessions[id].revokedAt.Some?
    ensures var t := RunFrom(s, steps);
      && id in t.db.sessions && t.db.sessions[id].revokedAt == s.db.sessions[id].revokedAt
      && (Succeeded(t, tid, id) ==> Succeeded(s, tid, id))
    decreases |steps|
  {
    if steps != [] {
      RevokedStays(s, steps[0], id);
      RevokedStep(s, steps[0], tid, id);
      RevokedForGood(Apply(s, steps[0]), steps[1..], tid, id);
    }
  }

  lemma RevokedStays(s: Sys, step: Step, id: string)
    requires Inv(s) && id in s.db.sessions && s.db.sessions[id].revokedAt.Some?
    ensures var u := Apply(s, step); Inv(u) && id in u.db.sessions && u.db.sessions[id].revokedAt == s.db.sessions[id].revokedAt
  {
    StepInv(s, step);
    GrowsRow(s, Apply(s, step), id);
  }

  lemma GrowsRow(s: Sys, u: Sys, id: string)
    requires Grows(s, u) && id in s.db.sessions
    ensures id in u.db.sessions && SameRow(s.db.sessions[id], u.db.sessions[id])
  {
  }

  lemma RunThrough(before: seq<Step>, step: Step, after: seq<Step>)
    ensures Run(before + [step] + after) == RunFrom(Apply(Run(before), step), after)
  {
    RunAppend(START, before + [step], after);
    RunAppend(START, before, [step]);
  }

  lemma RevokeUserRow(s: Sys, user: Digest, now: int, id: string)
    requires id in s.db.sessions && s.db.sessions[id].user == user
    ensures var t := Apply(s, RevokeUser(user, now));
      t.threads == s.threads && id in t.db.sessions && t.db.sessions[id].revokedAt.Some?
  {
  }

  /** Logging out: after the user's sessions are revoked, none of their Lookups under way or yet to
      come succeeds. */
  lemma LogoutEndsSessions(before: seq<Step>, user: Digest, now: int, after: seq<Step>, tid: nat, id: string)
    requires var s := Run(before); id in s.db.sessions && s.db.sessions[id].user == user
    ensures Succeeded(Run(before + [RevokeUser(user, now)] + after), tid, id) ==> Succeeded(Run(before), tid, id)
  {
    var s := Run(before);
    var t := Apply(s, RevokeUser(user, now));
    RunInv(before);
    StepInv(s, RevokeUser(user, now));
    RevokeUserRow(s, user, now, id);
    RunThrough(before, RevokeUser(user, now), after);
    RevokedForGood(t, after, tid, id);
  }

  // ----- a wrong capability -----

  lemma WrongCapabilityGo(s: Sys, t: Thread)
    requires ThreadOk(s, t) && t.call.Lookup?
    requires t.call.id in s.db.sessions ==> s.db.sessions[t.call.id].token != t.call.presented
    ensures t.stage.Begin? || t.stage.Finished?
    ensures After(s, t) == s && Advance(s.db, t).1.stage.Finished?
    ensures t.stage.Finished? || Advance(s.db, t).1.stage.result.None?
  {
  }

  /** A Lookup that presents anything but the session's capability never gets past its first
      statement: no step of it, in any interleaving, changes a table or a lease. */
  lemma WrongCapabilityIsInert(steps: seq<Step>, tid: nat)
    requires var s := Run(steps); tid in s.threads && s.threads[tid].call.Lookup?
    requires var s := Run(steps); var t := s.threads[tid]; t.call.id in s.db.sessions ==> s.db.sessions[t.call.id].token != t.call.presented
    ensures var s := Run(steps); var u := Apply(s, Go(tid));
      && u == s.(threads := s.threads[tid := u.threads[tid]])
      && u.threads[tid].stage.Finished?
      && (s.threads[tid].stage.Finished? || u.threads[tid].stage.result.None?)
  {
    RunInv(steps);
    WrongCapabilityGo(Run(steps), Run(steps).threads[tid]);
  }

  // ----- no resurrection -----

  /** `ListServices` would show it. */
  predicate InDirectory(db: Db, id: string) {
    id in db.services && db.services[id].enabled && db.services[id].owner.None?
  }

  predicate IsDead(s: Sys, id: string) {
    id in s.temporary && id in s.db.services && Dead(s.db.services[id])
  }

  lemma DeadRenew(s: Sys, t: Thread, id: string)
    requires WellStaged(t) && t.stage.Renew? && IsDead(s, id)
    ensures id in After(s, t).db.services && After(s, t).db.services[id] == s.db.services[id]
  {
  }

  lemma DeadSweep(db: Db, now: int, id: string)
    requires id in db.services && Dead(db.services[id])
    ensures var swept := ExpireServices(db, now); id in swept.services && swept.services[id] == db.services[id]
  {
  }

  /** Reading statements change no table. */
  lemma ReadsOnly(s: Sys, t: Thread)
    requires WellStaged(t) && (t.stage.Begin? || t.stage.Select? || t.stage.Finished?)
    ensures After(s, t).db == s.db
  {
  }

  /** Statements about sessions do not touch the services. */
  lemma CommitLeavesServices(s: Sys, t: Thread)
    requires WellStaged(t) && t.stage.Commit?
    ensures After(s, t).db.services == s.db.services
  {
    assert After(s, t).db == Advance(s.db, t).0;
    if t.call.Create? {
      assert InsertSession(s.db, Built(t, t.stage.target), t.call.later).Some? ==>
        InsertSession(s.db, Built(t, t.stage.target), t.call.later).value.services == s.db.services;
    }
  }

  lemma SweepOnly(s: Sys, t: Thread)
    requires WellStaged(t) && t.stage.Sweep?
    ensures After(s, t).db == ExpireServices(s.db, t.now)
  {
  }

  lemma DeadGo(s: Sys, t: Thread, id: string)
    requires WellStaged(t) && IsDead(s, id)
    ensures id in After(s, t).db.services && After(s, t).db.services[id] == s.db.services[id]
  {
    if t.stage.Renew? {
      DeadRenew(s, t, id);
    } else if t.stage.Sweep? {
      SweepOnly(s, t);
      DeadSweep(s.db, t.now, id);
    } else if t.stage.Commit? {
      CommitLeavesServices(s, t);
    } else {
      ReadsOnly(s, t);
    }
  }

  lemma DeadStep(s: Sys, step: Step, id: string)
    requires Inv(s) && IsDead(s, id)
    ensures IsDead(Apply(s, step), id)
  {
    StepInv(s, step);
    if step.Go? && step.tid in s.threads {
      DeadGo(s, s.threads[step.tid], id);
    } else if !step.Go? {
      DeadOther(s, step, id);
    }
  }

  /** Sweeps and revocations find a dead service disabled, and its identifier is taken. */
  lemma DeadOther(s: Sys, step: Step, id: string)
    requires IsDead(s, id) && !step.Go?
    ensures IsDead(Apply(s, step), id)
  {
  }

  lemma {:induction false} DeadStaysDead(s: Sys, steps: seq<Step>, id: string)
    requires Inv(s) && IsDead(s, id)
    ensures IsDead(RunFrom(s, steps), id)
    decreases |steps|
  {
    if steps != [] {
      DeadStep(s, steps[0], id);
      StepInv(s, steps[0]);
      DeadStaysDead(Apply(s, steps[0]), steps[1..], id);
    }
  }

  /** In every reachable state the directory shows only services made by CreateService, and an owned
      service is enabled with both limits set. */
  lemma DirectoryIsPermanent(steps: seq<Step>, id: string)
    requires InDirectory(Run(steps).db, id)
    ensures id !in Run(steps).temporary
  {
    RunInv(steps);
  }

  /** No resurrection: a temporary service that expired or was revoked is never listed and never
      authorised again, for anybody, at any time, although its owner column became NULL. */
  lemma NoResurrection(before: seq<Step>, after: seq<Step>, id: string, user: Digest, now: int)
    requires id in Run(before).temporary && id in Run(before).db.services && !Run(before).db.services[id].enabled
    ensures var t := Run(before + after);
      && !InDirectory(t.db, id)
      && SelectService(t.db, id, user, now).None?
      && (forall next :: RenewService(t.db, id, user, now, next).None?)
      && id in t.temporary
  {
    var s := Run(before);
    RunInv(before);
    RunAppend(START, before, after);
    assert IsDead(s, id);
    DeadStaysDead(s, after, id);
  }
}
