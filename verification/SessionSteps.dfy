/** Every statement of every call keeps the table and thread invariants. */
module SessionSteps {
  import opened Clock
  import opened Options
  import opened Store
  import opened Sessions

  ghost predicate Keeps(s: Sys, u: Sys) {
    TablesOk(u) && Grows(s, u)
  }

  // ----- one stage of a call at a time -----

  lemma BeginKeeps(s: Sys, t: Thread)
    requires TablesOk(s) && ThreadOk(s, t) && t.stage.Begin?
    ensures After(s, t) == s && ThreadOk(s, Advance(s.db, t).1)
  {
    if t.call.Lookup? && SelectSession(s.db, t.call.id, t.user, t.now).Some? {
      FoundIsTrue(s, t.call.id, t.user, t.now);
    }
  }

  /** What the session SELECT reads, including the kind of the service, is the truth. */
  lemma FoundIsTrue(s: Sys, id: string, user: Digest, now: int)
    requires TablesOk(s) && SelectSession(s.db, id, user, now).Some?
    ensures var r := SelectSession(s.db, id, user, now).value;
      r.id == id && r.user == user && Describes(s, r) && r.absolute == s.db.sessions[id].absoluteAt * SECOND
  {
    var service := s.db.sessions[id].service;
    EnabledKind(s, service);
  }

  /** For an enabled service, having an owner and being temporary are the same thing. */
  lemma EnabledKind(s: Sys, id: string)
    requires TablesOk(s) && id in s.db.services && s.db.services[id].enabled
    ensures s.db.services[id].owner.Some? <==> id in s.temporary
    ensures id in s.temporary ==> id in s.leaseBorn && id in s.leaseRenewed && Leased(s.db.services[id], s.leaseBorn[id], s.leaseRenewed[id])
  {
  }

  lemma SweepKeeps(s: Sys, t: Thread)
    requires TablesOk(s) && ThreadOk(s, t) && t.stage.Sweep?
    ensures Keeps(s, After(s, t)) && ThreadOk(After(s, t), Advance(s.db, t).1)
  {
    ExpireKeeps(s, t.now);
    var u := After(s, t);
    assert u == s.(db := ExpireServices(s.db, t.now));
    ThreadStays(s, u, t);
  }

  lemma ExpireKeeps(s: Sys, now: int)
    requires TablesOk(s)
    ensures Keeps(s, s.(db := ExpireServices(s.db, now)))
  {
    var services := ExpireServices(s.db, now).services;
    ExpireRetires(s.db, now);
    RetiresKeeps(s.db.services, services, s.temporary, s.leaseBorn, s.leaseRenewed);
    SessionsStay(s.db.sessions, s.db.services, services, s.born, s.renewed);
  }

  lemma RevokeOwnedKeeps(s: Sys, owner: Digest)
    requires TablesOk(s)
    ensures Keeps(s, s.(db := RevokeServices(s.db, owner)))
  {
    var services := RevokeServices(s.db, owner).services;
    RevokeRetires(s.db, owner);
    RetiresKeeps(s.db.services, services, s.temporary, s.leaseBorn, s.leaseRenewed);
    SessionsStay(s.db.sessions, s.db.services, services, s.born, s.renewed);
  }

  lemma SelectReads(s: Sys, t: Thread)
    requires WellStaged(t) && t.stage.Select?
    ensures After(s, t) == s
  {
  }

  lemma SelectThread(s: Sys, t: Thread)
    requires ThreadOk(s, t) && t.stage.Select?
    requires var found := SelectService(s.db, ServiceOf(t), t.user, t.now); found.Some? ==> TargetOk(s, ServiceOf(t), found.value)
    ensures ThreadOk(s, Advance(s.db, t).1)
  {
  }

  lemma SelectKeeps(s: Sys, t: Thread)
    requires TablesOk(s) && ThreadOk(s, t) && t.stage.Select?
    ensures After(s, t) == s && ThreadOk(s, Advance(s.db, t).1)
  {
    if SelectService(s.db, ServiceOf(t), t.user, t.now).Some? {
      SelectedIsTrue(s, ServiceOf(t), t.user, t.now);
    }
    SelectReads(s, t);
    SelectThread(s, t);
  }

  /** What the service SELECT reads is the truth, too. */
  lemma SelectedIsTrue(s: Sys, id: string, user: Digest, now: int)
    requires TablesOk(s) && SelectService(s.db, id, user, now).Some?
    ensures TargetOk(s, id, SelectService(s.db, id, user, now).value)
  {
    EnabledKind(s, id);
  }

  lemma RenewTables(s: Sys, id: string, now: int, db: Db)
    requires TablesOk(s) && id in s.db.services && s.db.services[id].owner.Some?
    ensures id in s.leaseBorn
    ensures var row := s.db.services[id].(expiresAt := Some(Unix(Clamp(now, Unix(s.leaseBorn[id] + ABSOLUTE) * SECOND))));
      db == s.db.(services := s.db.services[id := row]) ==> Keeps(s, s.(db := db, leaseRenewed := s.leaseRenewed[id := now]))
  {
    RenewKeeps(s.db.services, s.temporary, s.leaseBorn, s.leaseRenewed, id, now);
    var row := s.db.services[id].(expiresAt := Some(Unix(Clamp(now, Unix(s.leaseBorn[id] + ABSOLUTE) * SECOND))));
    SessionsStay(s.db.sessions, s.db.services, s.db.services[id := row], s.born, s.renewed);
  }

  lemma RenewStageKeeps(s: Sys, t: Thread)
    requires TablesOk(s) && ThreadOk(s, t) && t.stage.Renew?
    ensures Keeps(s, After(s, t))
  {
    var id, target := ServiceOf(t), t.stage.target;
    if RenewService(s.db, id, t.user, t.now, Clamp(t.now, target.absolute)).Some? {
      RenewTables(s, id, t.now, After(s, t).db);
    }
  }

  lemma RenewStageThread(s: Sys, t: Thread)
    requires ThreadOk(s, t) && t.stage.Renew? && Grows(s, After(s, t))
    ensures ThreadOk(After(s, t), Advance(s.db, t).1)
  {
    ThreadStays(s, After(s, t), t);
  }

  lemma RenewKeepsAll(s: Sys, t: Thread)
    requires TablesOk(s) && ThreadOk(s, t) && t.stage.Renew?
    ensures Keeps(s, After(s, t)) && ThreadOk(After(s, t), Advance(s.db, t).1)
  {
    RenewStageKeeps(s, t);
    RenewStageThread(s, t);
  }

  lemma TouchStageKeeps(s: Sys, t: Thread)
    requires TablesOk(s) && ThreadOk(s, t) && t.stage.Commit? && t.call.Lookup?
    ensures Keeps(s, After(s, t))
  {
    var id := t.call.id;
    var next := Clamp(t.now, t.stage.found.value.absolute);
    if TouchSession(s.db, id, t.user, t.now, next).Some? {
      var row := s.db.sessions[id].(lastSeenAt := Unix(t.now), expiresAt := Unix(next));
      assert After(s, t) == s.(db := s.db.(sessions := s.db.sessions[id := row]), renewed := s.renewed[id := t.now]);
      TouchTables(s, id, t.now, row);
    } else {
      assert After(s, t) == s;
    }
  }

  lemma TouchTables(s: Sys, id: string, now: int, row: SessionRow)
    requires TablesOk(s) && id in s.db.sessions
    requires row == s.db.sessions[id].(lastSeenAt := Unix(now), expiresAt := Unix(Clamp(now, s.db.sessions[id].absoluteAt * SECOND)))
    ensures Keeps(s, s.(db := s.db.(sessions := s.db.sessions[id := row]), renewed := s.renewed[id := now]))
  {
    TouchRows(s.db.sessions, s.db.services, s.born, s.renewed, id, now, row);
  }

  lemma TouchRows(rows: Rows, services: Services, born: Times, renewed: Times, id: string, now: int, row: SessionRow)
    requires SessionsOk(rows, services, born, renewed) && id in rows
    requires row == rows[id].(lastSeenAt := Unix(now), expiresAt := Unix(Clamp(now, rows[id].absoluteAt * SECOND)))
    ensures SessionsOk(rows[id := row], services, born, renewed[id := now]) && SameRows(rows, rows[id := row])
  {
    assert SessionOk(rows[id], services, born[id], renewed[id]);
    TouchedRow(rows[id], services, born[id], renewed[id], now);
    WriteSessionKeeps(rows, services, born, renewed, id, row, born[id], now);
    assert born[id := born[id]] == born;
  }

  lemma TouchedRow(row: SessionRow, services: Services, born: int, renewed: int, now: int)
    requires SessionOk(row, services, born, renewed)
    ensures SessionOk(row.(lastSeenAt := Unix(now), expiresAt := Unix(Clamp(now, row.absoluteAt * SECOND))), services, born, now)
  {
    ClampRenews(born, now);
  }

  lemma TouchStageThread(s: Sys, t: Thread)
    requires ThreadOk(s, t) && t.stage.Commit? && t.call.Lookup? && Grows(s, After(s, t))
    ensures ThreadOk(After(s, t), Advance(s.db, t).1)
  {
    ThreadStays(s, After(s, t), t);
  }

  lemma InsertTables(s: Sys, id: string, later: int, row: SessionRow)
    requires TablesOk(s) && id !in s.db.sessions && SessionOk(row, s.db.services, later, later)
    ensures Keeps(s, s.(db := s.db.(sessions := s.db.sessions[id := row]), born := s.born[id := later], renewed := s.renewed[id := later]))
  {
    WriteSessionKeeps(s.db.sessions, s.db.services, s.born, s.renewed, id, row, later, later);
  }

  lemma InsertShape(s: Sys, t: Thread)
    requires WellStaged(t) && t.stage.Commit? && t.call.Create?
    ensures var r := Built(t, t.stage.target); var inserted := InsertSession(s.db, r, t.call.later);
      After(s, t) == if inserted.None? then s
                     else s.(db := inserted.value, born := s.born[r.id := t.call.later], renewed := s.renewed[r.id := t.call.later])
  {
  }

  lemma InsertedRow(s: Sys, t: Thread)
    requires TablesOk(s) && ThreadOk(s, t) && t.stage.Commit? && t.call.Create?
    ensures var r := Built(t, t.stage.target); var inserted := InsertSession(s.db, r, t.call.later);
      inserted.Some? ==>
        && r.id !in s.db.sessions && r.id in inserted.value.sessions
        && inserted.value == s.db.(sessions := s.db.sessions[r.id := inserted.value.sessions[r.id]])
        && SessionOk(inserted.value.sessions[r.id], s.db.services, t.call.later, t.call.later)
  {
    NewLease(t.call.later);
  }

  lemma InsertStageKeeps(s: Sys, t: Thread)
    requires TablesOk(s) && ThreadOk(s, t) && t.stage.Commit? && t.call.Create?
    ensures Keeps(s, After(s, t))
  {
    var r := Built(t, t.stage.target);
    var inserted := InsertSession(s.db, r, t.call.later);
    InsertShape(s, t);
    InsertedRow(s, t);
    if inserted.Some? {
      InsertTables(s, r.id, t.call.later, inserted.value.sessions[r.id]);
    }
  }

  lemma InsertStageThread(s: Sys, t: Thread)
    requires ThreadOk(s, t) && t.stage.Commit? && t.call.Create?
    ensures ThreadOk(After(s, t), Advance(s.db, t).1)
  {
  }

  lemma GoKeeps(s: Sys, t: Thread)
    requires TablesOk(s) && ThreadOk(s, t)
    ensures Keeps(s, After(s, t)) && ThreadOk(After(s, t), Advance(s.db, t).1)
  {
    match t.stage
    case Begin => BeginKeeps(s, t);
    case Sweep(_) => SweepKeeps(s, t);
    case Select(_) => SelectKeeps(s, t);
    case Renew(_, _) => RenewKeepsAll(s, t);
    case Commit(_, _) => CommitKeeps(s, t);
    case Finished(_) => FinishedKeeps(s, t);
  }

  lemma CommitKeeps(s: Sys, t: Thread)
    requires TablesOk(s) && ThreadOk(s, t) && t.stage.Commit?
    ensures Keeps(s, After(s, t)) && ThreadOk(After(s, t), Advance(s.db, t).1)
  {
    if t.call.Lookup? {
      TouchStageKeeps(s, t);
      TouchStageThread(s, t);
    } else {
      InsertStageKeeps(s, t);
      InsertStageThread(s, t);
    }
  }

  lemma FinishedKeeps(s: Sys, t: Thread)
    requires TablesOk(s) && ThreadOk(s, t) && t.stage.Finished?
    ensures Keeps(s, After(s, t)) && ThreadOk(After(s, t), Advance(s.db, t).1)
  {
  }

  // ----- the other statements -----

  lemma MakeServiceKeeps(s: Sys, id: string, row: ServiceRow)
    requires TablesOk(s) && id !in s.db.services && Permanent(row)
    ensures Keeps(s, s.(db := s.db.(services := s.db.services[id := row])))
  {
    InsertServiceKeeps(s.db.services, s.temporary, s.leaseBorn, s.leaseRenewed, id, row);
    SessionsStay(s.db.sessions, s.db.services, s.db.services[id := row], s.born, s.renewed);
  }

  lemma MakeTemporaryKeeps(s: Sys, id: string, row: ServiceRow, now: int)
    requires TablesOk(s) && id !in s.db.services && Leased(row, now, now)
    ensures Keeps(s, s.(db := s.db.(services := s.db.services[id := row]), temporary := s.temporary + {id},
                        leaseBorn := s.leaseBorn[id := now], leaseRenewed := s.leaseRenewed[id := now]))
  {
    InsertTemporaryKeeps(s.db.services, s.temporary, s.leaseBorn, s.leaseRenewed, id, row, now);
    SessionsStay(s.db.sessions, s.db.services, s.db.services[id := row], s.born, s.renewed);
  }

  lemma MakeKeeps(s: Sys, step: Step)
    requires TablesOk(s) && (step.MakeService? || step.MakeTemporary?)
    ensures Keeps(s, Apply(s, step))
  {
    if Apply(s, step) != s {
      var row := Apply(s, step).db.services[step.id];
      if step.MakeService? {
        MakeServiceKeeps(s, step.id, row);
      } else {
        NewLease(step.now);
        MakeTemporaryKeeps(s, step.id, row, step.now);
      }
    }
  }

  lemma RevokeKeeps(s: Sys, rows: Rows, now: int)
    requires TablesOk(s) && Revokes(s.db.sessions, rows, now)
    ensures Keeps(s, s.(db := s.db.(sessions := rows)))
  {
    RevokesKeeps(s.db.sessions, rows, s.db.services, s.born, s.renewed, now);
  }

  lemma RevokeOneKeeps(s: Sys, id: string, user: Digest, now: int)
    requires TablesOk(s)
    ensures Keeps(s, Apply(s, RevokeOne(id, user, now)))
  {
    RevokeKeeps(s, RevokeSession(s.db, id, user, now).sessions, now);
  }

  lemma RevokeUserKeeps(s: Sys, user: Digest, now: int)
    requires TablesOk(s)
    ensures Keeps(s, Apply(s, RevokeUser(user, now)))
  {
    RevokeKeeps(s, RevokeSessions(s.db, user, now).sessions, now);
  }

  lemma OtherKeeps(s: Sys, step: Step)
    requires TablesOk(s) && !step.Go?
    ensures Keeps(s, Apply(s, step))
  {
    match step
    case MakeService(_, _, _, _) => MakeKeeps(s, step);
    case MakeTemporary(_, _, _, _, _) => MakeKeeps(s, step);
    case ExpireAll(now) => ExpireKeeps(s, now);
    case RevokeOwned(owner) => RevokeOwnedKeeps(s, owner);
    case RevokeOne(id, user, now) => RevokeOneKeeps(s, id, user, now);
    case RevokeUser(user, now) => RevokeUserKeeps(s, user, now);
    case _ =>
  }

  /** The invariants of the tables do not look at the threads. */
  lemma ThreadsApart(s: Sys, v: Sys, threads: map<nat, Thread>, t: Thread)
    requires Keeps(s, v) && ThreadOk(v, t)
    ensures Keeps(s, v.(threads := threads)) && ThreadOk(v.(threads := threads), t)
  {
    ThreadStays(v, v.(threads := threads), t);
  }

  lemma GoStep(s: Sys, tid: nat)
    requires TablesOk(s) && tid in s.threads && ThreadOk(s, s.threads[tid])
    ensures var u := Apply(s, Go(tid)); tid in u.threads && Keeps(s, u) && ThreadOk(u, u.threads[tid])
  {
    var t := s.threads[tid];
    GoKeeps(s, t);
    ThreadsApart(s, After(s, t), s.threads[tid := Advance(s.db, t).1], Advance(s.db, t).1);
  }

  lemma StepKeeps(s: Sys, step: Step)
    requires Inv(s)
    ensures Keeps(s, Apply(s, step))
  {
    if step.Go? {
      if step.tid in s.threads { GoStep(s, step.tid); }
    } else {
      OtherKeeps(s, step);
    }
  }

  /** A step moves at most the thread it names; a new thread has not begun. */
  lemma OtherThreads(s: Sys, step: Step, tid: nat)
    requires step != Go(tid) && tid in Apply(s, step).threads
    ensures if tid in s.threads then Apply(s, step).threads[tid] == s.threads[tid] else Apply(s, step).threads[tid].stage.Begin?
  {
  }

  lemma ThreadStep(s: Sys, step: Step, tid: nat)
    requires Inv(s) && tid in Apply(s, step).threads && Grows(s, Apply(s, step))
    ensures ThreadOk(Apply(s, step), Apply(s, step).threads[tid])
  {
    if step == Go(tid) {
      GoStep(s, tid);
    } else {
      OtherThreads(s, step, tid);
      if tid in s.threads {
        ThreadStays(s, Apply(s, step), s.threads[tid]);
      }
    }
  }

  lemma StepInv(s: Sys, step: Step)
    requires Inv(s)
    ensures Inv(Apply(s, step)) && Grows(s, Apply(s, step))
  {
    StepKeeps(s, step);
    forall tid | tid in Apply(s, step).threads
      ensures ThreadOk(Apply(s, step), Apply(s, step).threads[tid])
    {
      ThreadStep(s, step, tid);
    }
  }

  lemma GrowsTrans(s: Sys, t: Sys, u: Sys)
    requires Grows(s, t) && Grows(t, u)
    ensures Grows(s, u)
  {
  }

  lemma {:induction false} RunFromInv(s: Sys, steps: seq<Step>)
    requires Inv(s)
    ensures Inv(RunFrom(s, steps))
    decreases |steps|
  {
    if steps != [] {
      StepInv(s, steps[0]);
      RunFromInv(Apply(s, steps[0]), steps[1..]);
    }
  }

  /** Over any stretch of any run, rows are never removed and never change hands. */
  lemma {:induction false} RunGrows(s: Sys, steps: seq<Step>)
    requires Inv(s)
    ensures Grows(s, RunFrom(s, steps))
    decreases |steps|
  {
    if steps != [] {
      var t := Apply(s, steps[0]);
      StepInv(s, steps[0]);
      RunGrows(t, steps[1..]);
      GrowsTrans(s, t, RunFrom(t, steps[1..]));
    }
  }

  lemma RunInv(steps: seq<Step>)
    ensures Inv(Run(steps))
  {
    RunFromInv(START, steps);
  }
}
