/** The signaling broker: expiring offers that one agent claims and finishes, and a one-token
    notification channel that wakes the agent's long poll. */
module Signaling {
  import opened Clock
  import opened OpaqueId

  const TTL: int := 2 * MINUTE

  datatype Outcome = Pending | Answered(sdp: string) | Failed(code: string)

  datatype Entry = Entry(
    agent: string,
    browserSession: string,
    service: string,
    user: Digest,
    capability: Digest,
    offer: string,
    restartOf: string,
    temporary: bool,
    createdAt: int,
    claimed: bool,
    outcome: Outcome
  )

  /** A create request; `offerOk` is the verdict of `signal.ValidateDescription` on the offer. */
  datatype Request = Request(
    agent: string,
    browserSession: string,
    service: string,
    user: Digest,
    capability: Digest,
    offer: string,
    offerOk: bool,
    restartOf: string,
    temporary: bool
  )

  type Sessions = map<string, Entry>

  /** What the broker's lock protects: the sessions and, for every notification channel that was
      made, whether it holds its token. */
  datatype Core = Core(sessions: Sessions, tokens: map<string, bool>)

  // ----- the locked regions -----

  predicate Live(e: Entry, now: int) {
    now - e.createdAt < TTL
  }

  function Pruned(sessions: Sessions, now: int): Sessions {
    map id | id in sessions && Live(sessions[id], now) :: sessions[id]
  }

  predicate ValidRequest(r: Request) {
    && ValidOpaqueId(r.agent) && ValidOpaqueId(r.browserSession) && ValidOpaqueId(r.service)
    && !Absent(r.user) && !Absent(r.capability) && r.offerOk
  }

  function Fresh(r: Request, now: int): Entry {
    Entry(r.agent, r.browserSession, r.service, r.user, r.capability, r.offer, r.restartOf, r.temporary, now, false, Pending)
  }

  /** The two entries speak for the same agent, browser session, service, user and capability. */
  predicate SameParty(a: Entry, b: Entry) {
    a.agent == b.agent && a.browserSession == b.browserSession && a.service == b.service
    && a.user == b.user && a.capability == b.capability && a.temporary == b.temporary
  }

  predicate MayCreate(sessions: Sessions, r: Request, now: int) {
    && ValidRequest(r)
    && (r.restartOf != "" ==> r.restartOf in sessions && SameParty(sessions[r.restartOf], Fresh(r, now)))
  }

  function DoCreate(c: Core, r: Request, id: string, now: int): Core {
    var kept := Pruned(c.sessions, now);
    if !ValidRequest(r) then c
    else if !MayCreate(kept, r, now) then c.(sessions := kept)
    else Core(kept[id := Fresh(r, now)], c.tokens[r.agent := true])
  }

  /** What is in the map after a Create: the live entries, and at most the new one. */
  lemma CreateKeeps(c: Core, r: Request, id: string, now: int)
    ensures forall x :: x in DoCreate(c, r, id, now).sessions ==>
      (x in c.sessions && DoCreate(c, r, id, now).sessions[x] == c.sessions[x]) || (x == id && DoCreate(c, r, id, now).sessions[x] == Fresh(r, now))
  {
  }

  predicate Waiting(e: Entry, agent: string) {
    e.agent == agent && !e.claimed && e.outcome.Pending?
  }

  /** `id` is what the scan of `Next` may select: a waiting offer, none older. */
  ghost predicate Oldest(sessions: Sessions, agent: string, id: string) {
    && id in sessions && Waiting(sessions[id], agent)
    && forall other :: other in sessions && Waiting(sessions[other], agent) ==> sessions[id].createdAt <= sessions[other].createdAt
  }

  ghost predicate NothingWaits(sessions: Sessions, agent: string) {
    forall id :: id in sessions ==> !Waiting(sessions[id], agent)
  }

  function DoClaim(c: Core, id: string, now: int): Core {
    var kept := Pruned(c.sessions, now);
    if id in kept then c.(sessions := kept[id := kept[id].(claimed := true)]) else c.(sessions := kept)
  }

  function DoPark(c: Core, agent: string, now: int): Core {
    Core(Pruned(c.sessions, now), if agent in c.tokens then c.tokens else c.tokens[agent := false])
  }

  predicate MayFinish(sessions: Sessions, agent: string, id: string) {
    id in sessions && sessions[id].agent == agent && sessions[id].claimed && sessions[id].outcome.Pending?
  }

  function DoFinish(c: Core, agent: string, id: string, outcome: Outcome, now: int): Core {
    var kept := Pruned(c.sessions, now);
    c.(sessions := if MayFinish(kept, agent, id) then kept[id := kept[id].(outcome := outcome)] else kept)
  }

  // ----- pollers and history -----

  datatype Stage = Scanning | Parked

  /** One call of `Next` between its start and its return. */
  datatype Poller = Poller(agent: string, stage: Stage)

  /** History that the theorems refer to; no step depends on it but for the identifiers in use. */
  datatype Past = Past(
    all: Sessions,                    // every entry ever made, as it was made
    birth: map<string, nat>,          // in which order
    claims: seq<string>,              // offers handed to agents
    results: seq<string>,             // offers that got a result
    handedTo: map<string, string>,    // which agent's poll an offer was handed to
    settledBy: map<string, string>    // which agent gave an offer its result
  )

  datatype Broker = Broker(core: Core, pollers: map<nat, Poller>, past: Past)

  const START := Broker(Core(map[], map[]), map[], Past(map[], map[], [], [], map[], map[]))

  datatype Step =
    | Create(request: Request, id: string, now: int)
    | Enter(p: nat, agent: string)
    | Scan(p: nat, pick: string, now: int)
    | Wake(p: nat)
    | GiveUp(p: nat)
    | Finish(agent: string, id: string, outcome: Outcome, now: int)
    | Status(now: int)

  /** Random identifiers are new and not empty; a scan claims an oldest waiting offer if there is one
      and parks otherwise. */
  ghost function Apply(s: Broker, step: Step): Broker {
    match step
    case Create(r, id, now) =>
      if id in s.past.all || id == "" then s
      else if !ValidRequest(r) || !MayCreate(Pruned(s.core.sessions, now), r, now) then
        s.(core := DoCreate(s.core, r, id, now))
      else
        s.(core := DoCreate(s.core, r, id, now),
           past := s.past.(all := s.past.all[id := Fresh(r, now)], birth := s.past.birth[id := |s.past.all|]))
    case Enter(p, agent) =>
      if p in s.pollers then s else s.(pollers := s.pollers[p := Poller(agent, Scanning)])
    case Scan(p, pick, now) =>
      if p !in s.pollers || s.pollers[p].stage == Parked then s
      else
        var agent := s.pollers[p].agent;
        var kept := Pruned(s.core.sessions, now);
        if NothingWaits(kept, agent) then
          s.(core := DoPark(s.core, agent, now), pollers := s.pollers[p := Poller(agent, Parked)])
        else if !Oldest(kept, agent, pick) then s
        else
          s.(core := DoClaim(s.core, pick, now), pollers := s.pollers - {p},
             past := s.past.(claims := s.past.claims + [pick], handedTo := s.past.handedTo[pick := agent]))
    case Wake(p) =>
      if p !in s.pollers || s.pollers[p].stage == Scanning || !Token(s, s.pollers[p].agent) then s
      else s.(core := s.core.(tokens := s.core.tokens[s.pollers[p].agent := false]),
              pollers := s.pollers[p := s.pollers[p].(stage := Scanning)])
    case GiveUp(p) =>
      if p !in s.pollers || s.pollers[p].stage == Scanning then s else s.(pollers := s.pollers - {p})
    case Finish(agent, id, outcome, now) =>
      if outcome.Pending? then s
      else if !MayFinish(Pruned(s.core.sessions, now), agent, id) then s.(core := DoFinish(s.core, agent, id, outcome, now))
      else s.(core := DoFinish(s.core, agent, id, outcome, now),
              past := s.past.(results := s.past.results + [id], settledBy := s.past.settledBy[id := agent]))
    case Status(now) => s.(core := s.core.(sessions := Pruned(s.core.sessions, now)))
  }

  /** The agent's notification channel holds its token. */
  predicate Token(s: Broker, agent: string) {
    agent in s.core.tokens && s.core.tokens[agent]
  }

  ghost function RunFrom(s: Broker, steps: seq<Step>): Broker
    decreases |steps|
  {
    if steps == [] then s else RunFrom(Apply(s, steps[0]), steps[1..])
  }

  ghost function Run(steps: seq<Step>): Broker {
    RunFrom(START, steps)
  }

  /** A Create is its locked region, unless its identifier is taken. */
  lemma CreateIsRegion(s: Broker, r: Request, id: string, now: int)
    ensures var t := Apply(s, Create(r, id, now));
      && (t.core == s.core || t.core == DoCreate(s.core, r, id, now)) && t.pollers == s.pollers && t.past.claims == s.past.claims
      && (t.past.all == s.past.all || (id !in s.past.all && t.past.all == s.past.all[id := Fresh(r, now)]))
  {
  }

  lemma {:induction false} RunAppend(s: Broker, a: seq<Step>, b: seq<Step>)
    ensures RunFrom(s, a + b) == RunFrom(RunFrom(s, a), b)
    decreases |a|
  {
    if a == [] {
      assert a + b == b;
    } else {
      assert (a + b)[1..] == a[1..] + b;
      RunAppend(Apply(s, a[0]), a[1..], b);
    }
  }

  // ----- what every step keeps -----

  /** An entry and its creation snapshot differ only in what claiming and finishing write. */
  predicate SameOrigin(e: Entry, made: Entry) {
    e == made.(claimed := e.claimed, outcome := e.outcome)
  }

  /** Every restart points to an older entry of the same party, less than two minutes older. */
  ghost predicate Chained(all: Sessions, birth: map<string, nat>) {
    && birth.Keys == all.Keys && "" !in all
    && (forall id :: id in birth ==> birth[id] < |all|)
    && (forall id :: id in all && all[id].restartOf != "" ==> Linked(all, birth, id, all[id].restartOf))
  }

  ghost predicate Linked(all: Sessions, birth: map<string, nat>, id: string, prev: string) {
    && id in all && prev in all && id in birth && prev in birth && birth[prev] < birth[id]
    && SameParty(all[prev], all[id])
    && all[id].createdAt - all[prev].createdAt < TTL
  }

  ghost predicate Recorded(sessions: Sessions, all: Sessions, claims: seq<string>, results: seq<string>) {
    && (forall id :: id in sessions ==> id in all && SameOrigin(sessions[id], all[id]))
    && (forall id :: id in sessions ==> (sessions[id].claimed <==> id in claims))
    && (forall id :: id in sessions ==> (sessions[id].outcome.Pending? <==> id !in results))
    && (forall id :: id in claims ==> id in all)
    && (forall id :: id in results ==> id in claims)
    && Distinct(claims) && Distinct(results)
  }

  ghost predicate Distinct(ids: seq<string>) {
    forall i, j :: 0 <= i < j < |ids| ==> ids[i] != ids[j]
  }

  /** The offers that went to an agent, or were settled by one, were made for that agent. */
  ghost predicate ForItsAgent(all: Sessions, ids: seq<string>, who: map<string, string>) {
    forall id :: id in ids ==> id in all && id in who && who[id] == all[id].agent
  }

  ghost predicate Inv(s: Broker) {
    && Chained(s.past.all, s.past.birth) && Recorded(s.core.sessions, s.past.all, s.past.claims, s.past.results)
    && ForItsAgent(s.past.all, s.past.claims, s.past.handedTo) && ForItsAgent(s.past.all, s.past.results, s.past.settledBy)
  }

  lemma ForItsAgentNext(all: Sessions, ids: seq<string>, who: map<string, string>, id: string)
    requires ForItsAgent(all, ids, who) && id in all && id !in ids
    ensures ForItsAgent(all, ids + [id], who[id := all[id].agent])
  {
  }

  lemma ChainedInsert(all: Sessions, birth: map<string, nat>, id: string, e: Entry)
    requires Chained(all, birth) && id !in all && id != ""
    requires e.restartOf != "" ==> e.restartOf in all && SameParty(all[e.restartOf], e) && e.createdAt - all[e.restartOf].createdAt < TTL
    ensures Chained(all[id := e], birth[id := |all|])
  {
    var all', birth' := all[id := e], birth[id := |all|];
    assert |all'| == |all| + 1;
    forall x | x in all' && all'[x].restartOf != ""
      ensures Linked(all', birth', x, all'[x].restartOf)
    {
      if x != id {
        assert Linked(all, birth, x, all[x].restartOf);
      }
    }
  }

  lemma RecordedInsert(sessions: Sessions, all: Sessions, claims: seq<string>, results: seq<string>, id: string, e: Entry)
    requires Recorded(sessions, all, claims, results) && id !in all && !e.claimed && e.outcome.Pending?
    ensures Recorded(sessions[id := e], all[id := e], claims, results)
  {
  }

  lemma RecordedPruned(sessions: Sessions, all: Sessions, claims: seq<string>, results: seq<string>, now: int)
    requires Recorded(sessions, all, claims, results)
    ensures Recorded(Pruned(sessions, now), all, claims, results)
  {
  }

  lemma RecordedClaim(sessions: Sessions, all: Sessions, claims: seq<string>, results: seq<string>, id: string)
    requires Recorded(sessions, all, claims, results) && id in sessions && !sessions[id].claimed
    ensures Recorded(sessions[id := sessions[id].(claimed := true)], all, claims + [id], results)
  {
  }

  lemma RecordedFinish(sessions: Sessions, all: Sessions, claims: seq<string>, results: seq<string>, id: string, outcome: Outcome)
    requires Recorded(sessions, all, claims, results) && id in sessions && !outcome.Pending?
    requires sessions[id].claimed && sessions[id].outcome.Pending?
    ensures Recorded(sessions[id := sessions[id].(outcome := outcome)], all, claims, results + [id])
  {
  }

  lemma CreateInv(s: Broker, r: Request, id: string, now: int)
    requires Inv(s)
    ensures Inv(Apply(s, Create(r, id, now)))
  {
    var kept := Pruned(s.core.sessions, now);
    RecordedPruned(s.core.sessions, s.past.all, s.past.claims, s.past.results, now);
    if id !in s.past.all && id != "" && ValidRequest(r) && MayCreate(kept, r, now) {
      RecordedInsert(kept, s.past.all, s.past.claims, s.past.results, id, Fresh(r, now));
      ChainedInsert(s.past.all, s.past.birth, id, Fresh(r, now));
    }
  }

  lemma ClaimInv(s: Broker, agent: string, pick: string, now: int)
    requires Inv(s) && Oldest(Pruned(s.core.sessions, now), agent, pick)
    ensures var kept := Pruned(s.core.sessions, now);
      && Recorded(kept[pick := kept[pick].(claimed := true)], s.past.all, s.past.claims + [pick], s.past.results)
      && ForItsAgent(s.past.all, s.past.claims + [pick], s.past.handedTo[pick := agent])
  {
    RecordedPruned(s.core.sessions, s.past.all, s.past.claims, s.past.results, now);
    RecordedClaim(Pruned(s.core.sessions, now), s.past.all, s.past.claims, s.past.results, pick);
    ForItsAgentNext(s.past.all, s.past.claims, s.past.handedTo, pick);
  }

  lemma ScanInv(s: Broker, p: nat, pick: string, now: int)
    requires Inv(s)
    ensures Inv(Apply(s, Scan(p, pick, now)))
  {
    RecordedPruned(s.core.sessions, s.past.all, s.past.claims, s.past.results, now);
    if p in s.pollers && Oldest(Pruned(s.core.sessions, now), s.pollers[p].agent, pick) {
      ClaimInv(s, s.pollers[p].agent, pick, now);
    }
  }

  lemma FinishInv(s: Broker, agent: string, id: string, outcome: Outcome, now: int)
    requires Inv(s)
    ensures Inv(Apply(s, Finish(agent, id, outcome, now)))
  {
    var kept := Pruned(s.core.sessions, now);
    RecordedPruned(s.core.sessions, s.past.all, s.past.claims, s.past.results, now);
    if !outcome.Pending? && MayFinish(kept, agent, id) {
      RecordedFinish(kept, s.past.all, s.past.claims, s.past.results, id, outcome);
      ForItsAgentNext(s.past.all, s.past.results, s.past.settledBy, id);
    }
  }

  lemma StepInv(s: Broker, step: Step)
    requires Inv(s)
    ensures Inv(Apply(s, step))
  {
    match step
    case Create(r, id, now) => CreateInv(s, r, id, now);
    case Scan(p, pick, now) => ScanInv(s, p, pick, now);
    case Finish(agent, id, outcome, now) => FinishInv(s, agent, id, outcome, now);
    case Status(now) => RecordedPruned(s.core.sessions, s.past.all, s.past.claims, s.past.results, now);
    case _ =>
  }

  lemma {:induction false} RunFromInv(s: Broker, steps: seq<Step>)
    requires Inv(s)
    ensures Inv(RunFrom(s, steps))
    decreases |steps|
  {
    if steps != [] {
      StepInv(s, steps[0]);
      RunFromInv(Apply(s, steps[0]), steps[1..]);
    }
  }

  lemma RunInv(steps: seq<Step>)
    ensures Inv(Run(steps))
  {
    RunFromInv(START, steps);
  }
}
