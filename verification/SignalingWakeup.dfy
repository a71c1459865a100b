/** When the broker's long poll can miss an offer: exactly when two polls for one agent are under way. */
module SignalingWakeup {
  import opened Clock
  import opened OpaqueId
  import opened Signaling

  /** At most one call of `Next` for the agent is under way, as the Agent's sequential loop makes them. */
  ghost predicate OnePoller(s: Broker, agent: string) {
    forall p, q :: p in s.pollers && q in s.pollers && s.pollers[p].agent == agent && s.pollers[q].agent == agent ==> p == q
  }

  /** No parked poll of the agent sleeps beside an offer: if one waits, the token is in the channel. */
  ghost predicate Awake(s: Broker, agent: string) {
    forall p :: p in s.pollers && s.pollers[p] == Poller(agent, Parked) ==> NothingWaits(s.core.sessions, agent) || Token(s, agent)
  }

  /** A token comes into an agent's channel exactly with an accepted offer for the agent that finds none there,
      and leaves it exactly when a parked poll of the agent wakes. */
  lemma TokenMoves(s: Broker, step: Step, agent: string)
    ensures Token(Apply(s, step), agent) <==>
      if Token(s, agent) then !(step.Wake? && step.p in s.pollers && s.pollers[step.p] == Poller(agent, Parked))
      else step.Create? && step.request.agent == agent && step.id !in s.past.all && step.id != ""
           && MayCreate(Pruned(s.core.sessions, step.now), step.request, step.now)
  {
  }

  lemma ParkedMoves(s: Broker, step: Step, p: nat)
    requires p in s.pollers && s.pollers[p].stage == Parked
    ensures var t := Apply(s, step); var agent := s.pollers[p].agent;
      && (p !in t.pollers <==> step == GiveUp(p))
      && (p in t.pollers ==> t.pollers[p] == Poller(agent, if step == Wake(p) && Token(s, agent) then Scanning else Parked))
  {
  }

  /** The step is a scan of this poll. */
  predicate ScansBy(step: Step, p: nat) {
    step.Scan? && step.p == p
  }

  lemma ScanningMoves(s: Broker, step: Step, p: nat)
    requires p in s.pollers && s.pollers[p].stage == Scanning
    ensures var t := Apply(s, step); var agent := s.pollers[p].agent;
      && (p !in t.pollers <==> ScansBy(step, p) && Oldest(Pruned(s.core.sessions, step.now), agent, step.pick))
      && (p in t.pollers ==>
            t.pollers[p] == Poller(agent, if ScansBy(step, p) && NothingWaits(Pruned(s.core.sessions, step.now), agent) then Parked else Scanning))
  {
  }

  /** A poll returns an offer exactly if it scans while one waits, and gives up only while it is parked; it parks
      exactly if nothing waits, and scans again exactly if it takes the token. */
  lemma PollMoves(s: Broker, step: Step, p: nat)
    requires p in s.pollers
    ensures var t := Apply(s, step); var agent := s.pollers[p].agent;
      match s.pollers[p].stage
      case Parked =>
        && (p !in t.pollers <==> step == GiveUp(p))
        && (p in t.pollers ==> t.pollers[p] == Poller(agent, if step == Wake(p) && Token(s, agent) then Scanning else Parked))
      case Scanning =>
        && (p !in t.pollers <==> ScansBy(step, p) && Oldest(Pruned(s.core.sessions, step.now), agent, step.pick))
        && (p in t.pollers ==>
              t.pollers[p] == Poller(agent, if ScansBy(step, p) && NothingWaits(Pruned(s.core.sessions, step.now), agent) then Parked else Scanning))
  {
    match s.pollers[p].stage
    case Parked => ParkedMoves(s, step, p);
    case Scanning => ScanningMoves(s, step, p);
  }

  /** The offers still there are the old ones, claimed or finished further at most. */
  predicate NoNewWaiting(before: Sessions, after: Sessions, agent: string) {
    forall id :: id in after && Waiting(after[id], agent) ==> id in before && Waiting(before[id], agent)
  }

  lemma FewerWaitCreate(s: Broker, r: Request, id: string, now: int, agent: string)
    requires r.agent != agent
    ensures NoNewWaiting(s.core.sessions, Apply(s, Create(r, id, now)).core.sessions, agent)
  {
    CreateIsRegion(s, r, id, now);
    CreateKeeps(s.core, r, id, now);
  }

  lemma FewerWait(s: Broker, step: Step, agent: string)
    requires step.Create? ==> step.request.agent != agent
    ensures NoNewWaiting(s.core.sessions, Apply(s, step).core.sessions, agent)
  {
    if step.Create? {
      FewerWaitCreate(s, step.request, step.id, step.now, agent);
    }
  }

  lemma TokenStays(s: Broker, step: Step, agent: string)
    requires Token(s, agent)
    requires step.Wake? && step.p in s.pollers ==> s.pollers[step.p].agent != agent || s.pollers[step.p].stage == Scanning
    ensures Token(Apply(s, step), agent)
  {
  }

  /** Creating an offer leaves the token, or no new offer. */
  lemma CreateTokens(s: Broker, r: Request, id: string, now: int)
    ensures var t := Apply(s, Create(r, id, now));
      NoNewWaiting(s.core.sessions, t.core.sessions, r.agent) || Token(t, r.agent)
  {
  }

  /** A poll that stays parked, the only one of its agent. */
  lemma AwakePoller(s: Broker, step: Step, p: nat, agent: string)
    requires Awake(s, agent) && OnePoller(s, agent) && p in s.pollers && s.pollers[p] == Poller(agent, Parked)
    requires var t := Apply(s, step); p in t.pollers && t.pollers[p] == s.pollers[p]
    ensures var t := Apply(s, step); NothingWaits(t.core.sessions, agent) || Token(t, agent)
  {
    if Token(s, agent) {
      TokenStays(s, step, agent);
    } else if step.Create? && step.request.agent == agent {
      CreateTokens(s, step.request, step.id, step.now);
    } else {
      FewerWait(s, step, agent);
    }
  }

  /** A poll parks only where nothing waits. */
  lemma ParkedNow(s: Broker, step: Step, p: nat, agent: string)
    requires var t := Apply(s, step); p in t.pollers && t.pollers[p] == Poller(agent, Parked)
    requires p !in s.pollers || s.pollers[p] != Poller(agent, Parked)
    ensures NothingWaits(Apply(s, step).core.sessions, agent)
  {
  }

  lemma AwakeStep(s: Broker, step: Step, agent: string)
    requires Awake(s, agent) && OnePoller(s, agent)
    ensures Awake(Apply(s, step), agent)
  {
    var t := Apply(s, step);
    forall p | p in t.pollers && t.pollers[p] == Poller(agent, Parked)
      ensures NothingWaits(t.core.sessions, agent) || Token(t, agent)
    {
      if p in s.pollers && s.pollers[p] == Poller(agent, Parked) {
        AwakePoller(s, step, p, agent);
      } else {
        ParkedNow(s, step, p, agent);
      }
    }
  }

  /** No step reads the clock before the given moment. */
  predicate Since(steps: seq<Step>, from: int) {
    forall i :: 0 <= i < |steps| && (steps[i].Create? || steps[i].Scan? || steps[i].Finish? || steps[i].Status?) ==> steps[i].now >= from
  }

  /** No call of `Next` for the agent begins. */
  predicate NoEntry(steps: seq<Step>, agent: string) {
    forall i :: 0 <= i < |steps| && steps[i].Enter? ==> steps[i].agent != agent
  }

  /** Only a new call adds a poll. */
  lemma PollersShrink(s: Broker, step: Step, agent: string)
    requires step.Enter? ==> step.agent != agent
    ensures var t := Apply(s, step);
      forall p :: p in t.pollers && t.pollers[p].agent == agent ==> p in s.pollers && s.pollers[p].agent == agent
  {
  }

  lemma OnePollerStep(s: Broker, step: Step, agent: string)
    requires OnePoller(s, agent) && (step.Enter? ==> step.agent != agent)
    ensures OnePoller(Apply(s, step), agent)
  {
    PollersShrink(s, step, agent);
  }

  /** No lost wakeup: in every run in which the agent polls with one call at a time, whenever its poll is
      parked and an unclaimed offer for it is in the broker, the channel holds a token. */
  lemma {:induction false} NoLostWakeup(s: Broker, steps: seq<Step>, agent: string)
    requires Awake(s, agent)
    requires forall k :: 0 <= k <= |steps| ==> OnePoller(RunFrom(s, steps[..k]), agent)
    ensures Awake(RunFrom(s, steps), agent)
    decreases |steps|
  {
    if steps != [] {
      assert RunFrom(s, steps[..0]) == s;
      AwakeStep(s, steps[0], agent);
      forall k | 0 <= k <= |steps[1..]|
        ensures OnePoller(RunFrom(Apply(s, steps[0]), steps[1..][..k]), agent)
      {
        assert steps[..k + 1][1..] == steps[1..][..k] && steps[..k + 1][0] == steps[0];
        assert RunFrom(s, steps[..k + 1]) == RunFrom(Apply(s, steps[0]), steps[1..][..k]);
      }
      NoLostWakeup(Apply(s, steps[0]), steps[1..], agent);
    }
  }

  lemma {:induction false} StaysAwake(s: Broker, steps: seq<Step>, agent: string)
    requires Awake(s, agent) && OnePoller(s, agent) && NoEntry(steps, agent)
    ensures Awake(RunFrom(s, steps), agent)
    decreases |steps|
  {
    if steps != [] {
      AwakeStep(s, steps[0], agent);
      OnePollerStep(s, steps[0], agent);
      StaysAwake(Apply(s, steps[0]), steps[1..], agent);
    }
  }

  // ----- two polls for one agent can lose a wakeup -----

  lemma {:induction false} Longest(ids: set<string>) returns (n: nat)
    ensures forall id :: id in ids ==> |id| <= n
  {
    n := 0;
    if ids != {} {
      var x :| x in ids;
      var m := Longest(ids - {x});
      n := if |x| > m then |x| else m;
      assert ids == (ids - {x}) + {x};
    }
  }

  lemma NewPair(all: Sessions) returns (x: string, y: string)
    ensures x !in all && y !in all && x != y && x != "" && y != ""
  {
    var n := Longest(all.Keys);
    x, y := seq(n + 1, _ => 'x'), seq(n + 2, _ => 'x');
    assert |x| != |y|;
  }

  /** A moment, not before the given one, at which everything in the map has expired. */
  lemma {:induction false} AfterAll(sessions: Sessions, from: int) returns (now: int)
    ensures now >= from && Pruned(sessions, now) == map[]
    decreases |sessions|
  {
    now := from;
    if sessions != map[] {
      var x :| x in sessions;
      var rest := sessions - {x};
      assert |rest.Keys| < |sessions.Keys| by { assert sessions.Keys == rest.Keys + {x}; }
      var m := AfterAll(rest, from);
      now := if sessions[x].createdAt + TTL > m then sessions[x].createdAt + TTL else m;
      forall id | id in sessions
        ensures !Live(sessions[id], now)
      {
        assert id == x || (id in rest && id !in Pruned(rest, m));
      }
    }
  }

  function Ask(agent: string): Request {
    var one := seq(32, _ => 1);
    Request(agent, agent, agent, one, one, "", true, "", false)
  }

  lemma Created(s: Broker, agent: string, id: string, now: int)
    requires ValidOpaqueId(agent) && id !in s.past.all && id != ""
    ensures var t := Apply(s, Create(Ask(agent), id, now));
      && t.core.sessions == Pruned(s.core.sessions, now)[id := Fresh(Ask(agent), now)]
      && t.core.tokens == s.core.tokens[agent := true]
      && t.pollers == s.pollers && t.past.all == s.past.all[id := Fresh(Ask(agent), now)]
  {
    assert !Absent(Ask(agent).user) by { assert Ask(agent).user[0] == 1; }
  }

  lemma TwoOffers(s: Broker, agent: string, x: string, y: string, now: int) returns (t: Broker)
    requires ValidOpaqueId(agent) && x !in s.past.all && y !in s.past.all && x != y && x != "" && y != ""
    requires Pruned(s.core.sessions, now) == map[]
    ensures t == Apply(Apply(s, Create(Ask(agent), x, now)), Create(Ask(agent), y, now))
    ensures var offer := Fresh(Ask(agent), now); t.core.sessions == map[x := offer, y := offer]
    ensures t.pollers == s.pollers && Token(t, agent)
  {
    var offer := Fresh(Ask(agent), now);
    var a := Apply(s, Create(Ask(agent), x, now));
    Created(s, agent, x, now);
    assert a.core.sessions == map[x := offer];
    Created(a, agent, y, now);
    assert Pruned(map[x := offer], now) == map[x := offer];
    t := Apply(a, Create(Ask(agent), y, now));
  }

  /** When everything has expired, a scan parks, and a parked poll ignores it. */
  lemma ScanParks(s: Broker, p: nat, now: int)
    requires p in s.pollers && Pruned(s.core.sessions, now) == map[]
    ensures var t := Apply(s, Scan(p, "", now));
      && t.pollers == s.pollers[p := Poller(s.pollers[p].agent, Parked)] && t.past == s.past
      && Pruned(t.core.sessions, now) == map[]
  {
    var t := Apply(s, Scan(p, "", now));
    if s.pollers[p].stage == Parked {
      assert t == s;
    } else {
      assert NothingWaits(map[], s.pollers[p].agent);
      assert t.core.sessions == map[];
    }
  }

  lemma WakeTakesToken(b: Broker, p: nat, agent: string)
    requires p in b.pollers && b.pollers[p] == Poller(agent, Parked) && Token(b, agent)
    ensures var c := Apply(b, Wake(p));
      !Token(c, agent) && c.core.sessions == b.core.sessions && c.pollers == b.pollers[p := Poller(agent, Scanning)]
  {
  }

  /** With two parked polls, two offers and one wakeup leave one poll asleep beside an offer. */
  lemma ParkedLose(s: Broker, p: nat, q: nat, agent: string, now: int) returns (steps: seq<Step>)
    requires p != q && p in s.pollers && q in s.pollers && s.pollers[p] == s.pollers[q] == Poller(agent, Parked)
    requires ValidOpaqueId(agent) && Pruned(s.core.sessions, now) == map[]
    ensures NoEntry(steps, agent) && Since(steps, now) && !Awake(RunFrom(s, steps), agent)
  {
    var x, y := NewPair(s.past.all);
    var b := TwoOffers(s, agent, x, y, now);
    WakeTakesToken(b, p, agent);
    LoseLast(Apply(b, Wake(p)), p, q, x, y, now);
    steps := [Create(Ask(agent), x, now), Create(Ask(agent), y, now), Wake(p), Scan(p, x, now)];
    RunFour(s, steps[0], steps[1], steps[2], steps[3]);
  }

  lemma LoseLast(c: Broker, p: nat, q: nat, x: string, y: string, now: int)
    requires p != q && p in c.pollers && q in c.pollers && c.pollers[p].agent == c.pollers[q].agent
    requires c.pollers[p].stage == Scanning && c.pollers[q].stage == Parked && !Token(c, c.pollers[q].agent)
    requires x != y && c.core.sessions == map[x := Fresh(Ask(c.pollers[p].agent), now), y := Fresh(Ask(c.pollers[p].agent), now)]
    ensures !Awake(Apply(c, Scan(p, x, now)), c.pollers[p].agent)
  {
    var agent := c.pollers[p].agent;
    var kept := Pruned(c.core.sessions, now);
    assert kept == c.core.sessions;
    assert Oldest(kept, agent, x);
    var d := Apply(c, Scan(p, x, now));
    assert d.pollers[q] == c.pollers[q];
    assert y in d.core.sessions && Waiting(d.core.sessions[y], agent);
  }

  lemma RunFour(s: Broker, a: Step, b: Step, c: Step, d: Step)
    ensures RunFrom(s, [a, b, c, d]) == Apply(Apply(Apply(Apply(s, a), b), c), d)
  {
    RunAppend(s, [a, b, c], [d]);
    RunAppend(s, [a, b], [c]);
    RunAppend(s, [a], [b]);
    assert [a, b, c] + [d] == [a, b, c, d] && [a, b] + [c] == [a, b, c] && [a] + [b] == [a, b];
  }

  lemma RunTwo(s: Broker, a: Step, b: Step, more: seq<Step>)
    ensures RunFrom(s, [a, b] + more) == RunFrom(Apply(Apply(s, a), b), more)
  {
    RunAppend(s, [a, b], more);
    RunAppend(s, [a], [b]);
    assert [a] + [b] == [a, b];
  }

  /** Any two polls for one agent, wherever they stand, can lose a wakeup without any new call, from any
      moment on. */
  lemma TwoPollersLose(s: Broker, p: nat, q: nat, agent: string, from: int) returns (steps: seq<Step>)
    requires p != q && p in s.pollers && q in s.pollers && s.pollers[p].agent == s.pollers[q].agent == agent
    requires ValidOpaqueId(agent)
    ensures NoEntry(steps, agent) && Since(steps, from) && !Awake(RunFrom(s, steps), agent)
  {
    var now := AfterAll(s.core.sessions, from);
    var a := Apply(s, Scan(p, "", now));
    ScanParks(s, p, now);
    ScanParks(a, q, now);
    var rest := ParkedLose(Apply(a, Scan(q, "", now)), p, q, agent, now);
    steps := [Scan(p, "", now), Scan(q, "", now)] + rest;
    RunTwo(s, Scan(p, "", now), Scan(q, "", now), rest);
  }

  /** The exact condition.  From any state in which nobody sleeps beside an offer for the agent, the calls
      that are under way can run, from any moment on, into one where somebody does, if and only if two of
      them are for this agent. */
  lemma WakeupExactly(s: Broker, agent: string, from: int)
    requires Awake(s, agent) && ValidOpaqueId(agent)
    ensures (exists steps :: NoEntry(steps, agent) && Since(steps, from) && !Awake(RunFrom(s, steps), agent)) <==> !OnePoller(s, agent)
  {
    if OnePoller(s, agent) {
      forall steps | NoEntry(steps, agent) && Since(steps, from)
        ensures Awake(RunFrom(s, steps), agent)
      {
        StaysAwake(s, steps, agent);
      }
    } else {
      var p, q :| p in s.pollers && q in s.pollers && s.pollers[p].agent == agent && s.pollers[q].agent == agent && p != q;
      var steps := TwoPollersLose(s, p, q, agent, from);
    }
  }

  /** Two polls for one agent are reachable, and so is the loss: two calls on an empty broker. */
  lemma TwoPollersReachable(agent: string)
    ensures var s := Run([Enter(0, agent), Enter(1, agent)]); Awake(s, agent) && !OnePoller(s, agent)
  {
    RunTwo(START, Enter(0, agent), Enter(1, agent), []);
    assert [Enter(0, agent), Enter(1, agent)] + [] == [Enter(0, agent), Enter(1, agent)];
    var s := Run([Enter(0, agent), Enter(1, agent)]);
    assert 0 in s.pollers && 1 in s.pollers;
  }
}
