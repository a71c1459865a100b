/** Theorems about every run of the signaling broker: restart chains and the life of an offer. */
module SignalingRuns {
  import opened Clock
  import opened Options
  import opened Signaling

  // ----- restart chains -----

  /** The entry reached by following `restartOf` k times, pruned entries included. */
  ghost function Ancestor(all: Sessions, id: string, k: nat): Option<string>
    decreases k
  {
    if id !in all then None
    else if k == 0 then Some(id)
    else Ancestor(all, all[id].restartOf, k - 1)
  }

  lemma {:induction false} ChainAncestor(all: Sessions, birth: map<string, nat>, id: string, k: nat)
    requires Chained(all, birth) && Ancestor(all, id, k).Some?
    ensures var a := Ancestor(all, id, k).value;
      && id in all && a in all && id in birth && a in birth && birth[a] + k <= birth[id]
      && SameParty(all[a], all[id])
      && all[id].createdAt - all[a].createdAt <= k * (TTL - 1)
    decreases k
  {
    if k > 0 {
      var prev := all[id].restartOf;
      assert prev in all;
      assert Linked(all, birth, id, prev);
      ChainAncestor(all, birth, prev, k - 1);
      assert k * (TTL - 1) == (k - 1) * (TTL - 1) + (TTL - 1);
    }
  }

  lemma ChainSummary(all: Sessions, birth: map<string, nat>, id: string, k: nat)
    requires Chained(all, birth) && id in all
    ensures Ancestor(all, id, k).None? ==> k > 0
    ensures Ancestor(all, id, k).Some? ==>
      var a := Ancestor(all, id, k).value;
      && a in all && SameParty(all[a], all[id]) && k < |all|
      && (k > 0 ==> all[id].createdAt - all[a].createdAt < k * TTL)
  {
    if Ancestor(all, id, k).Some? {
      ChainAncestor(all, birth, id, k);
      assert k * (TTL - 1) == k * TTL - k;
    }
  }

  /** In every run, the whole restart chain behind an offer, through entries long pruned, speaks for
      the same agent, browser session, service, user, capability and kind; each link is less than two
      minutes, and the chain ends. */
  lemma RestartChain(steps: seq<Step>, id: string, k: nat)
    requires id in Run(steps).past.all
    ensures var all := Run(steps).past.all; Ancestor(all, id, k).Some? ==>
      var a := Ancestor(all, id, k).value;
      && a in all && k < |all|
      && all[a].agent == all[id].agent && all[a].browserSession == all[id].browserSession && all[a].service == all[id].service
      && all[a].user == all[id].user && all[a].capability == all[id].capability && all[a].temporary == all[id].temporary
      && (k > 0 ==> all[id].createdAt - all[a].createdAt < k * (2 * MINUTE))
  {
    RunInv(steps);
    ChainSummary(Run(steps).past.all, Run(steps).past.birth, id, k);
  }

  // ----- expiry -----

  /** The calls that get as far as the lock. */
  predicate Locks(s: Broker, step: Step) {
    match step
    case Create(r, id, _) => id !in s.past.all && id != "" && ValidRequest(r)
    case Scan(p, _, _) => p in s.pollers && s.pollers[p].stage == Scanning
    case Finish(_, _, outcome, _) => !outcome.Pending?
    case Status(_) => true
    case _ => false
  }

  lemma ScanSweeps(s: Broker, p: nat, pick: string, now: int, x: string)
    requires p in s.pollers && s.pollers[p].stage == Scanning && x in s.core.sessions
    requires var kept := Pruned(s.core.sessions, now); NothingWaits(kept, s.pollers[p].agent) || Oldest(kept, s.pollers[p].agent, pick)
    ensures x in Apply(s, Scan(p, pick, now)).core.sessions <==> now - s.core.sessions[x].createdAt < 2 * MINUTE
  {
  }

  lemma CallSweeps(s: Broker, step: Step, x: string)
    requires Locks(s, step) && !step.Scan? && x in s.core.sessions && (step.Create? ==> x != step.id)
    ensures x in Apply(s, step).core.sessions <==> step.now - s.core.sessions[x].createdAt < 2 * MINUTE
  {
  }

  /** In every reachable state, a call that takes the lock and returns or parks leaves exactly those entries that
      are under two minutes old, beside the one it makes. */
  lemma ExpiredExactly(steps: seq<Step>, step: Step, x: string)
    requires var s := Run(steps); Locks(s, step) && x in s.core.sessions
    requires var s := Run(steps); step.Scan? ==>
      var kept := Pruned(s.core.sessions, step.now); NothingWaits(kept, s.pollers[step.p].agent) || Oldest(kept, s.pollers[step.p].agent, step.pick)
    ensures var s := Run(steps); x in Apply(s, step).core.sessions <==> step.now - s.core.sessions[x].createdAt < 2 * MINUTE
  {
    var s := Run(steps);
    if step.Scan? {
      ScanSweeps(s, step.p, step.pick, step.now, x);
    } else {
      assert x in s.past.all by {
        RunInv(steps);
      }
      CallSweeps(s, step, x);
    }
  }

  // ----- the life of an offer -----

  datatype View = Unknown | Offered | Claimed | Settled(outcome: Outcome) | Gone

  function ViewIn(sessions: Sessions, all: Sessions, id: string): View {
    if id in sessions then
      var e := sessions[id];
      if !e.outcome.Pending? then Settled(e.outcome) else if e.claimed then Claimed else Offered
    else if id in all then Gone
    else Unknown
  }

  function ViewOf(s: Broker, id: string): View {
    ViewIn(s.core.sessions, s.past.all, id)
  }

  function Rank(v: View): nat {
    match v
    case Unknown => 0
    case Offered => 1
    case Claimed => 2
    case Settled(_) => 3
    case Gone => 4
  }

  /** An offer only ever moves forward, and a result never changes. */
  predicate Forward(v: View, w: View) {
    Rank(v) <= Rank(w) && (v.Settled? && w.Settled? ==> v == w)
  }

  lemma ForwardTrans(u: View, v: View, w: View)
    requires Forward(u, v) && Forward(v, w)
    ensures Forward(u, w)
  {
  }

  lemma PruneForward(sessions: Sessions, all: Sessions, now: int, id: string)
    requires forall x :: x in sessions ==> x in all
    ensures Forward(ViewIn(sessions, all, id), ViewIn(Pruned(sessions, now), all, id))
  {
  }

  /** Writing one entry further forward moves nothing back. */
  lemma WriteForward(sessions: Sessions, all: Sessions, x: string, e: Entry, id: string)
    requires Forward(ViewIn(sessions, all, x), ViewIn(sessions[x := e], all, x))
    ensures Forward(ViewIn(sessions, all, id), ViewIn(sessions[x := e], all, id))
  {
  }

  lemma CreateForward(s: Broker, r: Request, made: string, now: int, id: string)
    requires forall x :: x in s.core.sessions ==> x in s.past.all
    ensures Forward(ViewOf(s, id), ViewOf(Apply(s, Create(r, made, now)), id))
  {
    PruneForward(s.core.sessions, s.past.all, now, id);
  }

  lemma ScanForward(s: Broker, p: nat, pick: string, now: int, id: string)
    requires forall x :: x in s.core.sessions ==> x in s.past.all
    ensures Forward(ViewOf(s, id), ViewOf(Apply(s, Scan(p, pick, now)), id))
  {
    var kept := Pruned(s.core.sessions, now);
    PruneForward(s.core.sessions, s.past.all, now, id);
    if pick in kept && !kept[pick].claimed && kept[pick].outcome.Pending? {
      WriteForward(kept, s.past.all, pick, kept[pick].(claimed := true), id);
    }
  }

  lemma FinishForward(s: Broker, agent: string, done: string, outcome: Outcome, now: int, id: string)
    requires forall x :: x in s.core.sessions ==> x in s.past.all
    ensures Forward(ViewOf(s, id), ViewOf(Apply(s, Finish(agent, done, outcome, now)), id))
  {
    var kept := Pruned(s.core.sessions, now);
    PruneForward(s.core.sessions, s.past.all, now, id);
    if !outcome.Pending? && MayFinish(kept, agent, done) {
      WriteForward(kept, s.past.all, done, kept[done].(outcome := outcome), id);
    }
  }

  lemma StepForward(s: Broker, step: Step, id: string)
    requires Inv(s)
    ensures Forward(ViewOf(s, id), ViewOf(Apply(s, step), id))
  {
    match step
    case Create(r, made, now) => CreateForward(s, r, made, now, id);
    case Scan(p, pick, now) => ScanForward(s, p, pick, now, id);
    case Finish(agent, done, outcome, now) => FinishForward(s, agent, done, outcome, now, id);
    case Status(now) => PruneForward(s.core.sessions, s.past.all, now, id);
    case _ =>
  }

  lemma {:induction false} LifeGoesForward(s: Broker, steps: seq<Step>, id: string)
    requires Inv(s)
    ensures Forward(ViewOf(s, id), ViewOf(RunFrom(s, steps), id))
    decreases |steps|
  {
    if steps != [] {
      var t := Apply(s, steps[0]);
      StepForward(s, steps[0], id);
      StepInv(s, steps[0]);
      LifeGoesForward(t, steps[1..], id);
      ForwardTrans(ViewOf(s, id), ViewOf(t, id), ViewOf(RunFrom(s, steps), id));
    }
  }

  /** Over any run and any continuation: offered, claimed, settled with one constant result, gone for
      ever, in this order. */
  lemma Lifecycle(before: seq<Step>, after: seq<Step>, id: string)
    ensures Forward(ViewOf(Run(before), id), ViewOf(Run(before + after), id))
  {
    RunInv(before);
    RunAppend(START, before, after);
    LifeGoesForward(Run(before), after, id);
  }

  /** Over any run an offer is claimed at most once, by a poll of its own agent, and gets at most one
      result, never unclaimed and only from its own agent. */
  lemma ClaimedAndSettledOnce(steps: seq<Step>)
    ensures var s := Run(steps);
      && Distinct(s.past.claims) && Distinct(s.past.results)
      && (forall id :: id in s.past.results ==> id in s.past.claims)
      && (forall id :: id in s.past.claims ==> id in s.past.all && id in s.past.handedTo && s.past.handedTo[id] == s.past.all[id].agent)
      && (forall id :: id in s.past.results ==> id in s.past.settledBy && s.past.settledBy[id] == s.past.all[id].agent)
  {
    RunInv(steps);
  }

  /** A scan that claims took what its selection loop found. */
  lemma ScanClaims(s: Broker, p: nat, pick: string, now: int)
    requires Apply(s, Scan(p, pick, now)).past.claims != s.past.claims
    ensures p in s.pollers && s.pollers[p].stage == Scanning
    ensures var t := Apply(s, Scan(p, pick, now)); var agent := s.pollers[p].agent;
      && Oldest(Pruned(s.core.sessions, now), agent, pick)
      && t.core == DoClaim(s.core, pick, now)
      && t.past == s.past.(claims := s.past.claims + [pick], handedTo := s.past.handedTo[pick := agent])
  {
  }

  /** A claim takes the oldest live offer of the poller's own agent, and only that entry changes. */
  lemma ClaimIsOldest(s: Broker, p: nat, pick: string, now: int)
    requires Inv(s) && Apply(s, Scan(p, pick, now)).past.claims != s.past.claims
    ensures p in s.pollers
    ensures var t := Apply(s, Scan(p, pick, now)); var agent := s.pollers[p].agent;
      && pick in s.core.sessions && s.core.sessions[pick].agent == agent && Live(s.core.sessions[pick], now)
      && pick !in s.past.claims && t.past.claims == s.past.claims + [pick] && t.past.handedTo == s.past.handedTo[pick := agent]
      && (forall id :: id in s.core.sessions && Live(s.core.sessions[id], now) && Waiting(s.core.sessions[id], agent)
            ==> s.core.sessions[pick].createdAt <= s.core.sessions[id].createdAt)
      && (forall id :: id in t.core.sessions && id != pick ==> id in s.core.sessions && t.core.sessions[id] == s.core.sessions[id])
  {
    ScanClaims(s, p, pick, now);
    var kept := Pruned(s.core.sessions, now);
    var agent := s.pollers[p].agent;
    forall id | id in s.core.sessions && Live(s.core.sessions[id], now) && Waiting(s.core.sessions[id], agent)
      ensures s.core.sessions[pick].createdAt <= s.core.sessions[id].createdAt
    {
      assert id in kept;
    }
  }

  // ----- what an agent is told and what it answers -----

  datatype Offer = Offer(id: string, browserSession: string, service: string, capability: Digest,
                         sdp: string, restartOf: string, temporary: bool)

  function OfferOf(id: string, e: Entry): Offer {
    Offer(id, e.browserSession, e.service, e.capability, e.offer, e.restartOf, e.temporary)
  }

  /** `Create` was accepted: a valid request under a new identifier, restarting a live entry of the same party
      if any. */
  predicate Accepts(s: Broker, r: Request, id: string, now: int) {
    id !in s.past.all && id != "" && MayCreate(Pruned(s.core.sessions, now), r, now)
  }

  /** What was asked for does not change while the entry is there. */
  lemma {:induction false} OriginStays(s: Broker, steps: seq<Step>, id: string)
    requires Inv(s) && id in s.past.all
    ensures var t := RunFrom(s, steps); Inv(t) && id in t.past.all && t.past.all[id] == s.past.all[id]
    decreases |steps|
  {
    if steps != [] {
      StepInv(s, steps[0]);
      AllGrows(s, steps[0], id);
      OriginStays(Apply(s, steps[0]), steps[1..], id);
    }
  }

  lemma AllGrows(s: Broker, step: Step, id: string)
    requires id in s.past.all
    ensures id in Apply(s, step).past.all && Apply(s, step).past.all[id] == s.past.all[id]
  {
  }

  /** Whenever an offer is there to be handed out, in any continuation, it carries what its Create was asked:
      field by field, unclaimed or not. */
  lemma OfferedAsAsked(before: seq<Step>, r: Request, id: string, now: int, after: seq<Step>)
    requires Accepts(Run(before), r, id, now)
    ensures var t := RunFrom(Apply(Run(before), Create(r, id, now)), after); id in t.core.sessions ==>
      && OfferOf(id, t.core.sessions[id]) == Offer(id, r.browserSession, r.service, r.capability, r.offer, r.restartOf, r.temporary)
      && t.core.sessions[id].agent == r.agent && t.core.sessions[id].user == r.user && t.core.sessions[id].createdAt == now
  {
    var s := Apply(Run(before), Create(r, id, now));
    RunInv(before);
    StepInv(Run(before), Create(r, id, now));
    OriginStays(s, after, id);
    var t := RunFrom(s, after);
    if id in t.core.sessions {
      assert SameOrigin(t.core.sessions[id], t.past.all[id]);
    }
  }

  /** A result is stored as it is given. */
  lemma FinishStores(s: Broker, agent: string, id: string, outcome: Outcome, now: int)
    requires !outcome.Pending? && MayFinish(Pruned(s.core.sessions, now), agent, id)
    ensures var t := Apply(s, Finish(agent, id, outcome, now)); id in t.core.sessions && t.core.sessions[id].outcome == outcome
  {
  }

  /** From an accepted Finish on, every look at the offer shows exactly the outcome that was given, until it is
      gone for good. */
  lemma OutcomeIsKept(before: seq<Step>, agent: string, id: string, outcome: Outcome, now: int, after: seq<Step>)
    requires !outcome.Pending? && MayFinish(Pruned(Run(before).core.sessions, now), agent, id)
    ensures var t := RunFrom(Apply(Run(before), Finish(agent, id, outcome, now)), after);
      id in t.core.sessions ==> t.core.sessions[id].outcome == outcome
  {
    var s := Apply(Run(before), Finish(agent, id, outcome, now));
    RunInv(before);
    StepInv(Run(before), Finish(agent, id, outcome, now));
    FinishStores(Run(before), agent, id, outcome, now);
    LifeGoesForward(s, after, id);
  }

  /** The step that settles an offer. */
  predicate Settles(step: Step, id: string, agent: string, outcome: Outcome) {
    step.Finish? && step.id == id && step.agent == agent && step.outcome == outcome
  }

  /** An offer that is settled after a step was so before, or the step is the Finish of its own agent with this
      very outcome. */
  lemma SettledByStep(s: Broker, step: Step, id: string)
    requires Inv(s) && id in Apply(s, step).core.sessions && !Apply(s, step).core.sessions[id].outcome.Pending?
    ensures var e := Apply(s, step).core.sessions[id];
      (id in s.core.sessions && s.core.sessions[id].outcome == e.outcome) || Settles(step, id, e.agent, e.outcome)
  {
    if step.Create? {
      CreateIsRegion(s, step.request, step.id, step.now);
      CreateKeeps(s.core, step.request, step.id, step.now);
    } else if step.Scan? {
      ScanSettlesNothing(s, step.p, step.pick, step.now, id);
    } else if step.Finish? {
      FinishSettlesOne(s, step.agent, step.id, step.outcome, step.now, id);
    }
  }

  lemma ScanSettlesNothing(s: Broker, p: nat, pick: string, now: int, id: string)
    requires id in Apply(s, Scan(p, pick, now)).core.sessions
    ensures id in s.core.sessions && Apply(s, Scan(p, pick, now)).core.sessions[id].outcome == s.core.sessions[id].outcome
  {
  }

  lemma FinishSettlesOne(s: Broker, agent: string, done: string, outcome: Outcome, now: int, id: string)
    requires id in Apply(s, Finish(agent, done, outcome, now)).core.sessions
    ensures var e := Apply(s, Finish(agent, done, outcome, now)).core.sessions[id];
      id in s.core.sessions && (e.outcome == s.core.sessions[id].outcome || (id == done && e.agent == agent && e.outcome == outcome))
  {
  }

  lemma {:induction false} SettledBySome(s: Broker, steps: seq<Step>, id: string)
    requires Inv(s) && id in RunFrom(s, steps).core.sessions && !RunFrom(s, steps).core.sessions[id].outcome.Pending?
    ensures var e := RunFrom(s, steps).core.sessions[id];
      (id in s.core.sessions && s.core.sessions[id].outcome == e.outcome)
      || exists k :: 0 <= k < |steps| && Settles(steps[k], id, e.agent, e.outcome)
    decreases |steps|
  {
    if steps != [] {
      var t, e := Apply(s, steps[0]), RunFrom(s, steps).core.sessions[id];
      StepInv(s, steps[0]);
      SettledBySome(t, steps[1..], id);
      if id in t.core.sessions && t.core.sessions[id].outcome == e.outcome {
        RunFromInv(t, steps[1..]);
        SettledByStep(s, steps[0], id);
        SameAgent(t, steps[1..], id);
      } else {
        var k :| 0 <= k < |steps[1..]| && Settles(steps[1..][k], id, e.agent, e.outcome);
        assert Settles(steps[k + 1], id, e.agent, e.outcome);
      }
    }
  }

  lemma SameAgent(s: Broker, steps: seq<Step>, id: string)
    requires Inv(s) && id in s.core.sessions && id in RunFrom(s, steps).core.sessions
    ensures RunFrom(s, steps).core.sessions[id].agent == s.core.sessions[id].agent
  {
    OriginStays(s, steps, id);
    assert SameOrigin(s.core.sessions[id], s.past.all[id]);
    assert SameOrigin(RunFrom(s, steps).core.sessions[id], RunFrom(s, steps).past.all[id]);
  }

  /** In every run, what a user is told about an offer was given by a Finish of the offer's own agent, answer as
      answer and failure as failure. */
  lemma OutcomeWasGiven(steps: seq<Step>, id: string)
    requires id in Run(steps).core.sessions && !Run(steps).core.sessions[id].outcome.Pending?
    ensures var e := Run(steps).core.sessions[id]; exists k :: 0 <= k < |steps| && Settles(steps[k], id, e.agent, e.outcome)
  {
    SettledBySome(START, steps, id);
  }
}
