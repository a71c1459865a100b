/** The Controller's SQLite tables and the SQL statements that the session and service code runs on
    them.  A statement is atomic; times in the tables are whole seconds. */
module Store {
  import opened Clock
  import opened Options

  const IDLE: int := 30 * MINUTE
  const ABSOLUTE: int := 2 * HOUR

  datatype ServiceRow = ServiceRow(
    agent: string,
    slug: string,
    enabled: bool,
    owner: Option<Digest>,
    expiresAt: Option<int>,
    absoluteAt: Option<int>
  )

  datatype SessionRow = SessionRow(
    token: Digest,
    user: Digest,
    agent: string,
    service: string,
    createdAt: int,
    lastSeenAt: int,
    expiresAt: int,
    absoluteAt: int,
    revokedAt: Option<int>
  )

  datatype Db = Db(agents: set<string>, services: map<string, ServiceRow>, sessions: map<string, SessionRow>)

  /** `session.Record`; times in nanoseconds. */
  datatype Record = Record(
    id: string,
    token: Digest,
    user: Digest,
    agent: string,
    service: string,
    temporary: bool,
    lastSeen: int,
    expires: int,
    absolute: int
  )

  /** What `AuthorizedService` reads of a service. */
  datatype Target = Target(agent: string, temporary: bool, absolute: int)

  /** SQL comparison with a column that may be NULL. */
  predicate Later(column: Option<int>, now: int) {
    column.Some? && column.value > now
  }

  // ----- services -----

  predicate Overdue(row: ServiceRow, now: int) {
    row.owner.Some? && row.enabled && ((row.expiresAt.Some? && row.expiresAt.value <= now) || (row.absoluteAt.Some? && row.absoluteAt.value <= now))
  }

  function Retired(row: ServiceRow): ServiceRow {
    row.(enabled := false, owner := None, expiresAt := None, absoluteAt := None)
  }

  /** `expireTemporaryServices`. */
  function ExpireServices(db: Db, now: int): Db {
    db.(services := map id | id in db.services :: if Overdue(db.services[id], Unix(now)) then Retired(db.services[id]) else db.services[id])
  }

  /** `RevokeTemporaryServices`. */
  function RevokeServices(db: Db, owner: Digest): Db {
    db.(services := map id | id in db.services ::
      if db.services[id].owner == Some(owner) && db.services[id].enabled then Retired(db.services[id]) else db.services[id])
  }

  predicate Authorizes(row: ServiceRow, owner: Digest, now: int) {
    row.enabled && (row.owner.None? || (row.owner == Some(owner) && Later(row.expiresAt, now) && Later(row.absoluteAt, now)))
  }

  /** The SELECT of `AuthorizedService`. */
  function SelectService(db: Db, id: string, owner: Digest, now: int): Option<Target> {
    if id in db.services && Authorizes(db.services[id], owner, Unix(now)) then
      var row := db.services[id];
      Some(Target(row.agent, row.owner.Some?, if row.absoluteAt.Some? then row.absoluteAt.value * SECOND else 0))
    else None
  }

  predicate Renewable(row: ServiceRow, owner: Digest, now: int, next: int) {
    row.owner == Some(owner) && row.enabled && Later(row.expiresAt, now) && row.absoluteAt.Some? && row.absoluteAt.value >= next
  }

  function Clamp(now: int, limit: int): int {
    if now + IDLE > limit then limit else now + IDLE
  }

  /** The UPDATE of `AuthorizedService`; `None` when no row matched. */
  function RenewService(db: Db, id: string, owner: Digest, now: int, next: int): Option<Db> {
    if id in db.services && Renewable(db.services[id], owner, Unix(now), Unix(next)) then
      Some(db.(services := db.services[id := db.services[id].(expiresAt := Some(Unix(next)))]))
    else None
  }

  predicate SlugFree(db: Db, slug: string) {
    forall id :: id in db.services ==> db.services[id].slug != slug
  }

  /** `CreateService`: a permanent service has no owner and no limits. */
  function InsertService(db: Db, id: string, agent: string, slug: string, enabled: bool): Option<Db> {
    if id in db.services || agent !in db.agents || !SlugFree(db, slug) then None
    else Some(db.(services := db.services[id := ServiceRow(agent, slug, enabled, None, None, None)]))
  }

  /** The INSERT of `CreateTemporaryService`. */
  function InsertTemporary(db: Db, id: string, agent: string, slug: string, owner: Digest, expires: int, absolute: int): Option<Db> {
    if id in db.services || agent !in db.agents || !SlugFree(db, slug) then None
    else Some(db.(services := db.services[id := ServiceRow(agent, slug, true, Some(owner), Some(Unix(expires)), Some(Unix(absolute)))]))
  }

  // ----- browser sessions -----

  predicate SessionLive(row: SessionRow, user: Digest, now: int) {
    row.user == user && row.revokedAt.None? && row.expiresAt > now && row.absoluteAt > now
  }

  function RecordOf(id: string, row: SessionRow, temporary: bool): Record {
    Record(id, row.token, row.user, row.agent, row.service, temporary, row.lastSeenAt * SECOND, row.expiresAt * SECOND, row.absoluteAt * SECOND)
  }

  /** `BrowserSession`: the session joined with its service. */
  function SelectSession(db: Db, id: string, user: Digest, now: int): Option<Record> {
    if id in db.sessions && SessionLive(db.sessions[id], user, Unix(now))
       && db.sessions[id].service in db.services && db.services[db.sessions[id].service].enabled
    then Some(RecordOf(id, db.sessions[id], db.services[db.sessions[id].service].owner.Some?))
    else None
  }

  /** `TouchBrowserSession`; `None` when no row matched. */
  function TouchSession(db: Db, id: string, user: Digest, seen: int, expires: int): Option<Db> {
    if id in db.sessions && db.sessions[id].user == user && db.sessions[id].revokedAt.None?
       && db.sessions[id].expiresAt > Unix(seen) && db.sessions[id].absoluteAt >= Unix(expires)
    then Some(db.(sessions := db.sessions[id := db.sessions[id].(lastSeenAt := Unix(seen), expiresAt := Unix(expires))]))
    else None
  }

  /** `CreateBrowserSession`. */
  function InsertSession(db: Db, r: Record, created: int): Option<Db> {
    if r.id in db.sessions || r.service !in db.services || r.agent !in db.agents
       || (exists id :: id in db.sessions && db.sessions[id].token == r.token) then None
    else Some(db.(sessions := db.sessions[r.id :=
      SessionRow(r.token, r.user, r.agent, r.service, Unix(created), Unix(r.lastSeen), Unix(r.expires), Unix(r.absolute), None)]))
  }

  function RevokeRow(row: SessionRow, now: int): SessionRow {
    if row.revokedAt.None? then row.(revokedAt := Some(Unix(now))) else row
  }

  /** `RevokeBrowserSession`. */
  function RevokeSession(db: Db, id: string, user: Digest, now: int): Db {
    if id in db.sessions && db.sessions[id].user == user
    then db.(sessions := db.sessions[id := RevokeRow(db.sessions[id], now)])
    else db
  }

  /** `RevokeBrowserSessions`. */
  function RevokeSessions(db: Db, user: Digest, now: int): Db {
    db.(sessions := map id | id in db.sessions ::
      if db.sessions[id].user == user then RevokeRow(db.sessions[id], now) else db.sessions[id])
  }

  // ----- Create, Lookup and the visit of a temporary service, one SQL statement at a time -----

  /** The calls; random identifiers and tokens, and the second clock reading of Create, are given. */
  datatype Call =
    | Lookup(id: string, presented: Digest)
    | Create(service: string, newId: string, newToken: Digest, later: int)
    | Visit(service: string)      // TemporaryServiceBySlug, once it has the service's identifier

  datatype Stage =
    | Begin
    | Sweep(found: Option<Record>)
    | Select(found: Option<Record>)
    | Renew(found: Option<Record>, target: Target)
    | Commit(found: Option<Record>, target: Target)
    | Finished(result: Option<Record>)

  datatype Thread = Thread(call: Call, user: Digest, now: int, stage: Stage)

  predicate WellStaged(t: Thread) {
    match t.stage
    case Begin => true
    case Finished(_) => true
    case Commit(found, _) => !t.call.Visit? && (t.call.Lookup? <==> found.Some?)
    case _ => t.call.Lookup? <==> t.stage.found.Some?
  }

  function ServiceOf(t: Thread): string
    requires WellStaged(t) && !t.stage.Begin? && !t.stage.Finished?
  {
    if t.call.Lookup? then t.stage.found.value.service else t.call.service
  }

  /** After `AuthorizedService` returned: Lookup compares what it was told. */
  function Authorized(t: Thread, target: Target): Thread
    requires WellStaged(t) && !t.stage.Begin? && !t.stage.Finished?
  {
    if t.call.Lookup? && (target.agent != t.stage.found.value.agent || target.temporary != t.stage.found.value.temporary)
    then t.(stage := Finished(None))
    else if t.call.Visit? then t.(stage := Finished(None))
    else t.(stage := Commit(t.stage.found, target))
  }

  function Built(t: Thread, target: Target): Record
    requires t.call.Create?
  {
    var c := t.call;
    Record(c.newId, c.newToken, t.user, target.agent, c.service, target.temporary, c.later, c.later + IDLE, c.later + ABSOLUTE)
  }

  /** The next statement of a call. */
  function Advance(db: Db, t: Thread): (r: (Db, Thread))
    requires WellStaged(t)
    ensures WellStaged(r.1) && r.1.call == t.call && r.1.user == t.user && r.1.now == t.now
  {
    match t.stage
    case Begin =>
      if !t.call.Lookup? then (db, t.(stage := Sweep(None)))
      else
        var found := SelectSession(db, t.call.id, t.user, t.now);
        (db, t.(stage := if found.None? || found.value.token != t.call.presented then Finished(None) else Sweep(found)))
    case Sweep(found) => (ExpireServices(db, t.now), t.(stage := Select(found)))
    case Select(found) =>
      (match SelectService(db, ServiceOf(t), t.user, t.now)
       case None => (db, t.(stage := Finished(None)))
       case Some(target) => (db, if target.temporary then t.(stage := Renew(found, target)) else Authorized(t, target)))
    case Renew(found, target) =>
      (match RenewService(db, ServiceOf(t), t.user, t.now, Clamp(t.now, target.absolute))
       case None => (db, t.(stage := Finished(None)))
       case Some(renewed) => (renewed, Authorized(t, target)))
    case Commit(found, target) =>
      if t.call.Create? then
        (match InsertSession(db, Built(t, target), t.call.later)
         case None => (db, t.(stage := Finished(None)))
         case Some(inserted) => (inserted, t.(stage := Finished(Some(Built(t, target))))))
      else
        var next := Clamp(t.now, found.value.absolute);
        (match TouchSession(db, t.call.id, t.user, t.now, next)
         case None => (db, t.(stage := Finished(None)))
         case Some(touched) => (touched, t.(stage := Finished(Some(found.value.(lastSeen := t.now, expires := next))))))
    case Finished(_) => (db, t)
  }
}
