/** All interleavings of session calls with each other and with service creation, expiry and
    revocation: every SQL statement is a step.  History variables remember when leases really began
    and were renewed, and which services were made temporary. */
module Sessions {
  import opened Clock
  import opened Options
  import opened Store

  datatype Sys = Sys(
    db: Db,
    threads: map<nat, Thread>,
    // history
    temporary: set<string>,           // services made by CreateTemporaryService
    born: map<string, int>,           // session: when it was created
    renewed: map<string, int>,        // session: when it was created or last touched
    leaseBorn: map<string, int>,      // temporary service: the same
    leaseRenewed: map<string, int>
  )

  const START := Sys(Db({}, map[], map[]), map[], {}, map[], map[], map[], map[])

  datatype Step =
    | AddAgent(agent: string)
    | Call(tid: nat, call: Store.Call, user: Digest, now: int)
    | Go(tid: nat)
    | MakeService(id: string, agent: string, slug: string, enabled: bool)
    | ExpireAll(now: int)
    | MakeTemporary(id: string, agent: string, slug: string, owner: Digest, now: int)
    | RevokeOwned(owner: Digest)
    | RevokeOne(id: string, user: Digest, now: int)
    | RevokeUser(user: Digest, now: int)

  /** What a committed statement of thread `t` adds to the history. */
  function Note(s: Sys, t: Thread, after: (Db, Thread)): Sys
    requires WellStaged(t)
  {
    var u := s.(db := after.0);
    match t.stage
    case Renew(_, target) =>
      if RenewService(s.db, ServiceOf(t), t.user, t.now, Clamp(t.now, target.absolute)).Some?
      then u.(leaseRenewed := s.leaseRenewed[ServiceOf(t) := t.now]) else u
    case Commit(_, _) =>
      if !after.1.stage.Finished? || after.1.stage.result.None? then u
      else if t.call.Lookup? then u.(renewed := s.renewed[t.call.id := t.now])
      else if t.call.Create? then u.(born := s.born[t.call.newId := t.call.later], renewed := s.renewed[t.call.newId := t.call.later])
      else u
    case _ => u
  }

  /** Tables and history after the next statement of thread `t`. */
  function After(s: Sys, t: Thread): Sys
    requires WellStaged(t)
  {
    Note(s, t, Advance(s.db, t))
  }

  function Apply(s: Sys, step: Step): Sys {
    match step
    case AddAgent(agent) => s.(db := s.db.(agents := s.db.agents + {agent}))
    case Call(tid, call, user, now) =>
      if tid in s.threads then s else s.(threads := s.threads[tid := Thread(call, user, now, Begin)])
    case Go(tid) =>
      if tid !in s.threads || !WellStaged(s.threads[tid]) then s
      else After(s, s.threads[tid]).(threads := s.threads[tid := Advance(s.db, s.threads[tid]).1])
    case MakeService(id, agent, slug, enabled) =>
      (match InsertService(s.db, id, agent, slug, enabled)
       case None => s
       case Some(db) => s.(db := db))
    case ExpireAll(now) => s.(db := ExpireServices(s.db, now))
    case MakeTemporary(id, agent, slug, owner, now) =>
      (match InsertTemporary(s.db, id, agent, slug, owner, now + IDLE, now + ABSOLUTE)
       case None => s
       case Some(db) => s.(db := db, temporary := s.temporary + {id},
                           leaseBorn := s.leaseBorn[id := now], leaseRenewed := s.leaseRenewed[id := now]))
    case RevokeOwned(owner) => s.(db := RevokeServices(s.db, owner))
    case RevokeOne(id, user, now) => s.(db := RevokeSession(s.db, id, user, now))
    case RevokeUser(user, now) => s.(db := RevokeSessions(s.db, user, now))
  }

  function RunFrom(s: Sys, steps: seq<Step>): Sys
    decreases |steps|
  {
    if steps == [] then s else RunFrom(Apply(s, steps[0]), steps[1..])
  }

  function Run(steps: seq<Step>): Sys {
    RunFrom(START, steps)
  }

  lemma {:induction false} RunAppend(s: Sys, a: seq<Step>, b: seq<Step>)
    ensures RunFrom(s, a + b) == RunFrom(RunFrom(s, a), b)
    decreases |a|
  {
    if a == [] {
      assert a + b == b;
    } else {
      assert (a + b)[1..] == a[1..] + b;
      RunAppend(Apply(s, a[0]), a[1..], b);
    }
  }

  // ----- what every step keeps -----

  /** A two-level lease in whole seconds: the absolute limit is fixed by the birth, the idle limit by
      the last renewal, and the idle limit never exceeds the absolute one. */
  predicate Lease(expiresAt: int, absoluteAt: int, born: int, renewed: int) {
    && absoluteAt == Unix(born + ABSOLUTE)
    && expiresAt == if Unix(renewed + IDLE) <= absoluteAt then Unix(renewed + IDLE) else absoluteAt
  }

  predicate Permanent(row: ServiceRow) {
    row.owner.None? && row.expiresAt.None? && row.absoluteAt.None?
  }

  predicate Dead(row: ServiceRow) {
    Permanent(row) && !row.enabled
  }

  predicate Leased(row: ServiceRow, born: int, renewed: int) {
    row.enabled && row.owner.Some? && row.expiresAt.Some? && row.absoluteAt.Some?
    && Lease(row.expiresAt.value, row.absoluteAt.value, born, renewed)
  }

  type Services = map<string, ServiceRow>
  type Rows = map<string, SessionRow>
  type Times = map<string, int>

  /** Temporary services are dead or leased; everything else was made permanent. */
  ghost predicate ServicesOk(services: Services, temporary: set<string>, born: Times, renewed: Times) {
    && temporary <= services.Keys && born.Keys == temporary && renewed.Keys == temporary
    && (forall id :: id in services && id !in temporary ==> Permanent(services[id]))
    && (forall id :: id in temporary ==> Dead(services[id]) || Leased(services[id], born[id], renewed[id]))
  }

  /** Sessions carry a lease and name a service of their own agent. */
  ghost predicate SessionsOk(rows: Rows, services: Services, born: Times, renewed: Times) {
    && born.Keys == rows.Keys && renewed.Keys == rows.Keys
    && (forall id :: id in rows ==> SessionOk(rows[id], services, born[id], renewed[id]))
  }

  predicate SessionOk(row: SessionRow, services: Services, born: int, renewed: int) {
    && Lease(row.expiresAt, row.absoluteAt, born, renewed)
    && row.createdAt == Unix(born)
    && row.service in services && services[row.service].agent == row.agent
  }

  predicate Copies(r: Record, row: SessionRow) {
    row.token == r.token && row.user == r.user && row.agent == r.agent && row.service == r.service
  }

  /** A record in a thread's hands still describes its row. */
  predicate Describes(s: Sys, r: Record) {
    && r.id in s.db.sessions && r.service in s.db.services && Copies(r, s.db.sessions[r.id])
    && (r.temporary <==> r.service in s.temporary)
  }

  predicate FoundOk(s: Sys, t: Thread, found: Option<Record>) {
    found.Some? ==>
      && t.call.Lookup? && found.value.id == t.call.id && found.value.token == t.call.presented && found.value.user == t.user
      && Describes(s, found.value)
      && found.value.absolute == s.db.sessions[t.call.id].absoluteAt * SECOND
  }

  predicate TargetOk(s: Sys, service: string, target: Target) {
    && service in s.db.services && target.agent == s.db.services[service].agent
    && (target.temporary <==> service in s.temporary)
    && (target.temporary ==> service in s.leaseBorn && target.absolute == Unix(s.leaseBorn[service] + ABSOLUTE) * SECOND)
  }

  predicate ThreadOk(s: Sys, t: Thread) {
    && WellStaged(t)
    && match t.stage
       case Begin => true
       case Sweep(found) => FoundOk(s, t, found)
       case Select(found) => FoundOk(s, t, found)
       case Renew(found, target) => FoundOk(s, t, found) && target.temporary && TargetOk(s, ServiceOf(t), target)
       case Commit(found, target) => FoundOk(s, t, found) && TargetOk(s, ServiceOf(t), target)
       case Finished(result) => result.Some? ==> Describes(s, result.value) && result.value.user == t.user
  }

  ghost predicate TablesOk(s: Sys) {
    && ServicesOk(s.db.services, s.temporary, s.leaseBorn, s.leaseRenewed)
    && SessionsOk(s.db.sessions, s.db.services, s.born, s.renewed)
  }

  ghost predicate Inv(s: Sys) {
    TablesOk(s) && forall tid :: tid in s.threads ==> ThreadOk(s, s.threads[tid])
  }

  /** What no statement ever changes. */
  ghost predicate Grows(s: Sys, t: Sys) {
    && SameAgents(s.db.services, t.db.services)
    && (forall id :: id in s.db.services ==> (id in s.temporary <==> id in t.temporary))
    && (forall id :: id in s.leaseBorn ==> id in t.leaseBorn && t.leaseBorn[id] == s.leaseBorn[id])
    && SameRows(s.db.sessions, t.db.sessions)
  }

  ghost predicate SameAgents(a: Services, b: Services) {
    forall id :: id in a ==> id in b && b[id].agent == a[id].agent
  }

  ghost predicate SameRows(a: Rows, b: Rows) {
    forall id :: id in a ==> id in b && SameRow(a[id], b[id])
  }

  predicate SameRow(a: SessionRow, b: SessionRow) {
    && a.token == b.token && a.user == b.user && a.agent == b.agent && a.service == b.service
    && a.createdAt == b.createdAt && a.absoluteAt == b.absoluteAt
    && (a.revokedAt.Some? ==> b.revokedAt == a.revokedAt)
  }

  lemma ThreadStays(s: Sys, u: Sys, t: Thread)
    requires ThreadOk(s, t) && Grows(s, u)
    ensures ThreadOk(u, t)
  {
  }

  // ----- statements -----

  /** Retiring owned services, whichever. */
  ghost predicate Retires(a: Services, b: Services) {
    && a.Keys == b.Keys
    && forall id :: id in a ==> b[id] == a[id] || (a[id].owner.Some? && b[id] == Retired(a[id]))
  }

  lemma RetiresKeeps(a: Services, b: Services, temporary: set<string>, born: Times, renewed: Times)
    requires ServicesOk(a, temporary, born, renewed) && Retires(a, b)
    ensures ServicesOk(b, temporary, born, renewed) && SameAgents(a, b)
  {
  }

  lemma ExpireRetires(db: Db, now: int)
    ensures Retires(db.services, ExpireServices(db, now).services)
  {
  }

  lemma RevokeRetires(db: Db, owner: Digest)
    ensures Retires(db.services, RevokeServices(db, owner).services)
  {
  }

  /** Sessions do not care what happens to a service beyond its agent. */
  lemma SessionsStay(rows: Rows, a: Services, b: Services, born: Times, renewed: Times)
    requires SessionsOk(rows, a, born, renewed) && SameAgents(a, b)
    ensures SessionsOk(rows, b, born, renewed)
  {
  }

  /** Clamping to the stored limit renews the lease: flooring to seconds loses nothing, and the guard
      on the absolute limit always admits the clamped value. */
  lemma ClampRenews(born: int, now: int)
    ensures var limit := Unix(born + ABSOLUTE);
      Lease(Unix(Clamp(now, limit * SECOND)), limit, born, now) && limit >= Unix(Clamp(now, limit * SECOND))
  {
  }

  /** A new lease satisfies the lease law from the start. */
  lemma NewLease(now: int)
    ensures Lease(Unix(now + IDLE), Unix(now + ABSOLUTE), now, now)
  {
  }

  lemma RenewKeeps(a: Services, temporary: set<string>, born: Times, renewed: Times, id: string, now: int)
    requires ServicesOk(a, temporary, born, renewed) && id in a && a[id].owner.Some?
    ensures id in born
    ensures var row := a[id].(expiresAt := Some(Unix(Clamp(now, Unix(born[id] + ABSOLUTE) * SECOND))));
      ServicesOk(a[id := row], temporary, born, renewed[id := now]) && SameAgents(a, a[id := row])
  {
    ClampRenews(born[id], now);
  }

  lemma InsertServiceKeeps(a: Services, temporary: set<string>, born: Times, renewed: Times, id: string, row: ServiceRow)
    requires ServicesOk(a, temporary, born, renewed) && id !in a && Permanent(row)
    ensures ServicesOk(a[id := row], temporary, born, renewed) && SameAgents(a, a[id := row])
  {
  }

  lemma InsertTemporaryKeeps(a: Services, temporary: set<string>, born: Times, renewed: Times, id: string, row: ServiceRow, now: int)
    requires ServicesOk(a, temporary, born, renewed) && id !in a && Leased(row, now, now)
    ensures ServicesOk(a[id := row], temporary + {id}, born[id := now], renewed[id := now]) && SameAgents(a, a[id := row])
  {
  }

  /** Writing one session row. */
  lemma WriteSessionKeeps(rows: Rows, services: Services, born: Times, renewed: Times, id: string, row: SessionRow, b: int, r: int)
    requires SessionsOk(rows, services, born, renewed) && SessionOk(row, services, b, r)
    requires id in rows ==> SameRow(rows[id], row)
    ensures SessionsOk(rows[id := row], services, born[id := b], renewed[id := r]) && SameRows(rows, rows[id := row])
  {
  }

  ghost predicate Revokes(a: Rows, b: Rows, now: int) {
    a.Keys == b.Keys && forall id :: id in a ==> b[id] == a[id] || b[id] == RevokeRow(a[id], now)
  }

  lemma RevokesKeeps(a: Rows, b: Rows, services: Services, born: Times, renewed: Times, now: int)
    requires SessionsOk(a, services, born, renewed) && Revokes(a, b, now)
    ensures SessionsOk(b, services, born, renewed) && SameRows(a, b)
  {
  }
}
