/** The store and the session service as the imperative code runs them: tables that statements change
    in place, and calls that run their statements in a row.  A call that nobody interrupts is proved
    to be its thread of the session machine run to the end. */
module SessionService {
  import opened Clock
  import opened Options
  import opened Store
  import Ses = Sessions

  function Rank(stage: Stage): nat {
    match stage
    case Begin => 5
    case Sweep(_) => 4
    case Select(_) => 3
    case Renew(_, _) => 2
    case Commit(_, _) => 1
    case Finished(_) => 0
  }

  /** A call run to its end with no other statement in between. */
  function Alone(db: Db, t: Thread): (r: (Db, Option<Record>))
    requires WellStaged(t)
    decreases Rank(t.stage)
  {
    if t.stage.Finished? then (db, t.stage.result)
    else
      var (after, u) := Advance(db, t);
      Alone(after, u)
  }

  /** `AuthorizedService` with no other statement in between: sweep, select, and for a temporary
      service renew. */
  function Authorize(db: Db, id: string, owner: Digest, now: int): (Db, Option<Target>) {
    var swept := ExpireServices(db, now);
    match SelectService(swept, id, owner, now)
    case None => (swept, None)
    case Some(found) =>
      if !found.temporary then (swept, Some(found))
      else match RenewService(swept, id, owner, now, Clamp(now, found.absolute))
           case None => (swept, None)
           case Some(renewed) => (renewed, Some(found))
  }

  /** Right after the SELECT, the clamped renewal finds its row: only another statement in between can
      make it fail. */
  lemma RenewalSucceedsAlone(db: Db, id: string, owner: Digest, now: int)
    requires var found := SelectService(db, id, owner, now); found.Some? && found.value.temporary
    ensures RenewService(db, id, owner, now, Clamp(now, SelectService(db, id, owner, now).value.absolute)).Some?
  {
  }

  /** A thread that runs alone from its sweep on goes through `AuthorizedService` and then on. */
  lemma AloneAuthorizes(db: Db, t: Thread)
    requires WellStaged(t) && t.stage.Sweep?
    ensures var (after, target) := Authorize(db, ServiceOf(t), t.user, t.now);
      Alone(db, t) == if target.None? then (after, None) else Alone(after, Authorized(t, target.value))
  {
    var swept := ExpireServices(db, t.now);
    var selecting := t.(stage := Select(t.stage.found));
    assert Alone(db, t) == Alone(swept, selecting);
    var found := SelectService(swept, ServiceOf(t), t.user, t.now);
    if found.None? {
      assert Alone(swept, selecting) == (swept, None);
    } else if !found.value.temporary {
      assert Advance(swept, selecting) == (swept, Authorized(t, found.value));
    } else {
      var renewing := t.(stage := Renew(t.stage.found, found.value));
      assert Alone(swept, selecting) == Alone(swept, renewing);
      RenewalSucceedsAlone(swept, ServiceOf(t), t.user, t.now);
      var renewed := RenewService(swept, ServiceOf(t), t.user, t.now, Clamp(t.now, found.value.absolute));
      assert Advance(swept, renewing) == (renewed.value, Authorized(t, found.value));
    }
  }

  function Gos(tid: nat, n: nat): seq<Ses.Step> {
    seq(n, _ => Ses.Go(tid))
  }

  /** A call that nobody interrupts is its thread of the session machine, one statement after the other. */
  lemma {:induction false} AloneRuns(s: Ses.Sys, tid: nat)
    requires tid in s.threads && WellStaged(s.threads[tid])
    ensures var t := s.threads[tid]; var u := Ses.RunFrom(s, Gos(tid, Rank(t.stage)));
      && u.db == Alone(s.db, t).0 && u.threads == s.threads[tid := t.(stage := Finished(Alone(s.db, t).1))]
    decreases Rank(s.threads[tid].stage)
  {
    var t := s.threads[tid];
    if !t.stage.Finished? {
      var v := Ses.Apply(s, Ses.Go(tid));
      AloneSteps(s, tid);
      AloneRuns(v, tid);
      var n := Rank(v.threads[tid].stage);
      GosSplit(s, tid, n, Rank(t.stage));
    } else {
      assert s.threads[tid := t] == s.threads;
    }
  }

  lemma AloneSteps(s: Ses.Sys, tid: nat)
    requires tid in s.threads && WellStaged(s.threads[tid]) && !s.threads[tid].stage.Finished?
    ensures var t := s.threads[tid]; var v := Ses.Apply(s, Ses.Go(tid));
      && v.db == Advance(s.db, t).0 && v.threads == s.threads[tid := Advance(s.db, t).1]
      && Rank(v.threads[tid].stage) < Rank(t.stage)
  {
  }

  /** Once a call has finished, more turns for it change nothing. */
  lemma {:induction false} FinishedStays(s: Ses.Sys, tid: nat, n: nat)
    requires tid in s.threads && s.threads[tid].stage.Finished?
    ensures Ses.RunFrom(s, Gos(tid, n)) == s
  {
    if n > 0 {
      assert Ses.Apply(s, Ses.Go(tid)) == s by { assert s.threads[tid := s.threads[tid]] == s.threads; }
      assert Gos(tid, n)[1..] == Gos(tid, n - 1);
      FinishedStays(s, tid, n - 1);
    }
  }

  lemma GosTail(tid: nat, n: nat, m: nat)
    requires n < m
    ensures Gos(tid, m) == [Ses.Go(tid)] + (Gos(tid, n) + Gos(tid, m - 1 - n))
  {
  }

  lemma GosSplit(s: Ses.Sys, tid: nat, n: nat, m: nat)
    requires n < m && tid in s.threads
    requires var u := Ses.RunFrom(Ses.Apply(s, Ses.Go(tid)), Gos(tid, n)); tid in u.threads && u.threads[tid].stage.Finished?
    ensures Ses.RunFrom(s, Gos(tid, m)) == Ses.RunFrom(Ses.Apply(s, Ses.Go(tid)), Gos(tid, n))
  {
    GosTail(tid, n, m);
    RunOnThen(s, Ses.Go(tid), Gos(tid, n), Gos(tid, m - 1 - n));
    FinishedStays(Ses.RunFrom(Ses.Apply(s, Ses.Go(tid)), Gos(tid, n)), tid, m - 1 - n);
  }

  lemma RunOnThen(s: Ses.Sys, step: Ses.Step, a: seq<Ses.Step>, b: seq<Ses.Step>)
    ensures Ses.RunFrom(s, [step] + (a + b)) == Ses.RunFrom(Ses.RunFrom(Ses.Apply(s, step), a), b)
  {
    assert ([step] + (a + b))[1..] == a + b;
    Ses.RunAppend(Ses.Apply(s, step), a, b);
  }

  /** So a call by itself is a run of the session machine: the call, then five turns. */
  lemma CallAlone(s: Ses.Sys, tid: nat, call: Call, user: Digest, now: int)
    requires tid !in s.threads
    ensures var u := Ses.RunFrom(s, [Ses.Call(tid, call, user, now)] + Gos(tid, 5));
      var t := Thread(call, user, now, Begin);
      u.db == Alone(s.db, t).0 && tid in u.threads && u.threads[tid] == t.(stage := Finished(Alone(s.db, t).1))
  {
    var step := Ses.Call(tid, call, user, now);
    assert ([step] + Gos(tid, 5))[1..] == Gos(tid, 5);
    AloneRuns(Ses.Apply(s, step), tid);
  }

  /** Wherever the session machine stands with these tables, a new call that is given its turns in a row
      leaves these tables and returns this result. */
  ghost predicate RunsAs(db: Db, after: Db, result: Option<Record>, call: Call, user: Digest, now: int) {
    forall s: Ses.Sys, tid: nat :: s.db == db && tid !in s.threads ==>
      var u := Ses.RunFrom(s, [Ses.Call(tid, call, user, now)] + Gos(tid, 5));
      u.db == after && tid in u.threads && u.threads[tid].stage == Finished(result)
  }

  lemma AloneRunsAs(db: Db, call: Call, user: Digest, now: int)
    ensures var r := Alone(db, Thread(call, user, now, Begin)); RunsAs(db, r.0, r.1, call, user, now)
  {
    forall s: Ses.Sys, tid: nat | s.db == db && tid !in s.threads
      ensures var u := Ses.RunFrom(s, [Ses.Call(tid, call, user, now)] + Gos(tid, 5)); var r := Alone(db, Thread(call, user, now, Begin));
        u.db == r.0 && tid in u.threads && u.threads[tid].stage == Finished(r.1)
    {
      CallAlone(s, tid, call, user, now);
    }
  }

  class Service {
    var agents: set<string>
    var services: map<string, ServiceRow>
    var sessions: map<string, SessionRow>

    ghost function Tables(): Db
      reads this
    {
      Db(agents, services, sessions)
    }

    constructor ()
      ensures Tables() == Db({}, map[], map[])
    {
      agents, services, sessions := {}, map[], map[];
    }

    /** `expireTemporaryServices`, row by row. */
    method ExpireTemporaryServices(now: int)
      modifies this`services
      ensures Tables() == ExpireServices(old(Tables()), now)
    {
      var todo := services.Keys;
      while todo != {}
        invariant todo <= services.Keys && services.Keys == old(services).Keys
        invariant forall id :: id in services && id in todo ==> services[id] == old(services)[id]
        invariant forall id :: id in services && id !in todo ==>
          (services[id] == if Overdue(old(services)[id], Unix(now)) then Retired(old(services)[id]) else old(services)[id])
        decreases todo
      {
        var id :| id in todo;
        todo := todo - {id};
        var row := services[id];
        if row.owner.Some? && row.enabled && ((row.expiresAt.Some? && row.expiresAt.value <= Unix(now))
                                              || (row.absoluteAt.Some? && row.absoluteAt.value <= Unix(now))) {
          services := services[id := row.(enabled := false, owner := None, expiresAt := None, absoluteAt := None)];
        }
      }
    }

    /** `AuthorizedService`: `None` stands for its not-found error. */
    method AuthorizedService(id: string, owner: Digest, now: int) returns (target: Option<Target>)
      modifies this`services
      ensures (Tables(), target) == Authorize(old(Tables()), id, owner, now)
    {
      ExpireTemporaryServices(now);
      if id !in services {
        return None;
      }
      var row := services[id];
      if !row.enabled || (row.owner.Some? && !(row.owner == Some(owner) && Later(row.expiresAt, Unix(now)) && Later(row.absoluteAt, Unix(now)))) {
        return None;
      }
      var found := Target(row.agent, row.owner.Some?, if row.absoluteAt.Some? then row.absoluteAt.value * SECOND else 0);
      if found.temporary {
        var next := now + IDLE;
        if next > found.absolute {
          next := found.absolute;
        }
        if !(row.owner == Some(owner) && row.enabled && Later(row.expiresAt, Unix(now)) && row.absoluteAt.value >= Unix(next)) {
          return None;
        }
        services := services[id := row.(expiresAt := Some(Unix(next)))];
      }
      return Some(found);
    }

    /** `Service.Create`. */
    method Create(user: Digest, service: string, newId: string, newToken: Digest, now: int, later: int) returns (created: Option<Record>)
      modifies this
      ensures (Tables(), created) == Alone(old(Tables()), Thread(Call.Create(service, newId, newToken, later), user, now, Begin))
      ensures RunsAs(old(Tables()), Tables(), created, Call.Create(service, newId, newToken, later), user, now)
    {
      ghost var call := Call.Create(service, newId, newToken, later);
      AloneRunsAs(Tables(), call, user, now);
      ghost var db := Tables();
      var target := AuthorizedService(service, user, now);
      AloneAuthorizes(db, Thread(call, user, now, Sweep(None)));
      if target.None? {
        return None;
      }
      var record := Record(newId, newToken, user, target.value.agent, service, target.value.temporary, later, later + IDLE, later + ABSOLUTE);
      if newId in sessions || service !in services || record.agent !in agents || (exists id :: id in sessions && sessions[id].token == newToken) {
        return None;
      }
      sessions := sessions[newId := SessionRow(newToken, user, record.agent, service, Unix(later), Unix(later), Unix(later + IDLE), Unix(later + ABSOLUTE), None)];
      return Some(record);
    }

    /** `Service.Lookup` on a well-formed capability. */
    method Lookup(id: string, user: Digest, presented: Digest, now: int) returns (found: Option<Record>)
      modifies this
      ensures (Tables(), found) == Alone(old(Tables()), Thread(Call.Lookup(id, presented), user, now, Begin))
      ensures RunsAs(old(Tables()), Tables(), found, Call.Lookup(id, presented), user, now)
    {
      ghost var call := Call.Lookup(id, presented);
      AloneRunsAs(Tables(), call, user, now);
      ghost var db := Tables();
      if id !in sessions {
        return None;
      }
      var row := sessions[id];
      if row.user != user || row.revokedAt.Some? || row.expiresAt <= Unix(now) || row.absoluteAt <= Unix(now)
         || row.service !in services || !services[row.service].enabled {
        return None;
      }
      var record := Record(id, row.token, row.user, row.agent, row.service, services[row.service].owner.Some?,
                           row.lastSeenAt * SECOND, row.expiresAt * SECOND, row.absoluteAt * SECOND);
      if record.token != presented {
        return None;
      }
      var target := AuthorizedService(record.service, user, now);
      AloneAuthorizes(db, Thread(call, user, now, Sweep(Some(record))));
      if target.None? || target.value.agent != record.agent || target.value.temporary != record.temporary {
        return None;
      }
      var next := now + IDLE;
      if next > record.absolute {
        next := record.absolute;
      }
      row := sessions[id];
      if row.user != user || row.revokedAt.Some? || row.expiresAt <= Unix(now) || row.absoluteAt < Unix(next) {
        return None;
      }
      sessions := sessions[id := row.(lastSeenAt := Unix(now), expiresAt := Unix(next))];
      return Some(record.(lastSeen := now, expires := next));
    }
  }
}
