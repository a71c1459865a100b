/** In which order an agent is handed its offers over a whole run. */
module SignalingOrder {
  import opened OpaqueId
  import opened Signaling
  import opened SignalingRuns
  import opened SignalingWakeup

  /** The offers of one agent were claimed in the order of their creation. */
  ghost predicate Ordered(past: Past) {
    forall i, j :: 0 <= i < j < |past.claims| ==> NotOlder(past.all, past.claims[i], past.claims[j])
  }

  /** For offers of one agent: the second is not older than the first. */
  predicate NotOlder(all: Sessions, a: string, b: string) {
    a in all && b in all && all[a].agent == all[b].agent ==> all[a].createdAt <= all[b].createdAt
  }

  /** No offer that still waits is older than one the agent was handed before. */
  ghost predicate Ahead(s: Broker) {
    forall id, x :: id in s.past.claims && id in s.past.all && x in s.core.sessions && Waiting(s.core.sessions[x], s.past.all[id].agent) ==>
      s.past.all[id].createdAt <= s.core.sessions[x].createdAt
  }

  ghost predicate NoneAfter(all: Sessions, time: int) {
    forall id :: id in all ==> all[id].createdAt <= time
  }

  /** The calls of `Create` take the lock in the order in which they read the clock. */
  predicate InClockOrder(steps: seq<Step>) {
    forall i, j :: 0 <= i < j < |steps| && steps[i].Create? && steps[j].Create? ==> steps[i].now <= steps[j].now
  }

  predicate NotBefore(steps: seq<Step>, time: int) {
    forall i :: 0 <= i < |steps| && steps[i].Create? ==> time <= steps[i].now
  }

  /** Waiting offers are never made older, and none appears but by Create. */
  ghost predicate WaitingShrinks(a: Sessions, b: Sessions) {
    forall x :: x in b && !b[x].claimed && b[x].outcome.Pending? ==> x in a && a[x] == b[x]
  }

  lemma OthersShrink(s: Broker, step: Step)
    requires !step.Create?
    ensures WaitingShrinks(s.core.sessions, Apply(s, step).core.sessions)
  {
  }

  lemma OthersClaimNothing(s: Broker, step: Step)
    requires !step.Create? && !step.Scan?
    ensures Apply(s, step).past.claims == s.past.claims && Apply(s, step).past.all == s.past.all
  {
  }

  lemma ScanPast(s: Broker, p: nat, pick: string, now: int)
    ensures var t := Apply(s, Scan(p, pick, now)); t.past.all == s.past.all
  {
  }

  lemma OtherOrder(s: Broker, step: Step)
    requires Ordered(s.past) && Ahead(s) && !step.Create? && Apply(s, step).past.claims == s.past.claims && Apply(s, step).past.all == s.past.all
    ensures Ordered(Apply(s, step).past) && Ahead(Apply(s, step))
  {
    OthersShrink(s, step);
  }

  /** What was claimed had been created as it is in the history. */
  lemma PickedIsRecorded(s: Broker, pick: string, agent: string, now: int)
    requires Inv(s) && Oldest(Pruned(s.core.sessions, now), agent, pick)
    ensures pick in s.past.all && s.past.all[pick].createdAt == s.core.sessions[pick].createdAt && s.past.all[pick].agent == agent
    ensures pick in s.core.sessions && Waiting(s.core.sessions[pick], agent)
  {
  }

  lemma AppendOrdered(past: Past, id: string, handedTo: map<string, string>)
    requires Ordered(past) && id in past.all
    requires forall x :: x in past.claims && x in past.all && past.all[x].agent == past.all[id].agent ==> past.all[x].createdAt <= past.all[id].createdAt
    ensures Ordered(past.(claims := past.claims + [id], handedTo := handedTo))
  {
    var claims := past.claims + [id];
    assert forall i :: 0 <= i < |past.claims| ==> claims[i] == past.claims[i] && claims[i] in past.claims;
  }

  lemma ClaimOrder(s: Broker, p: nat, pick: string, now: int)
    requires Inv(s) && Ordered(s.past) && Ahead(s) && Apply(s, Scan(p, pick, now)).past.claims != s.past.claims
    ensures var t := Apply(s, Scan(p, pick, now)); Ordered(t.past) && Ahead(t)
  {
    var t := Apply(s, Scan(p, pick, now));
    ScanClaims(s, p, pick, now);
    var agent := s.pollers[p].agent;
    PickedIsRecorded(s, pick, agent, now);
    AppendOrdered(s.past, pick, t.past.handedTo);
    OthersShrink(s, Scan(p, pick, now));
    forall id, x | id in t.past.claims && id in t.past.all && x in t.core.sessions && Waiting(t.core.sessions[x], t.past.all[id].agent)
      ensures t.past.all[id].createdAt <= t.core.sessions[x].createdAt
    {
      if id == pick {
        ClaimedIsOldest(s, pick, agent, now, x);
      }
    }
  }

  lemma ClaimedIsOldest(s: Broker, pick: string, agent: string, now: int, x: string)
    requires Oldest(Pruned(s.core.sessions, now), agent, pick)
    requires var t := DoClaim(s.core, pick, now); x in t.sessions && Waiting(t.sessions[x], agent)
    ensures s.core.sessions[pick].createdAt <= DoClaim(s.core, pick, now).sessions[x].createdAt
  {
    assert x in Pruned(s.core.sessions, now);
  }

  /** A new offer is the youngest. */
  lemma CreateOrder(s: Broker, r: Request, id: string, now: int, time: int)
    requires Inv(s) && Ordered(s.past) && Ahead(s) && NoneAfter(s.past.all, time) && time <= now
    ensures var t := Apply(s, Create(r, id, now)); Ordered(t.past) && Ahead(t) && NoneAfter(t.past.all, now)
  {
    CreateShape(s, r, id, now);
    ClaimsRecorded(s);
    CreateOrdered(s.past, Apply(s, Create(r, id, now)).past, id);
    AheadGrows(s, Apply(s, Create(r, id, now)), r, id, now);
  }

  lemma ClaimsRecorded(s: Broker)
    requires Inv(s)
    ensures forall x :: x in s.past.claims ==> x in s.past.all
  {
  }

  lemma CreateOrdered(a: Past, b: Past, id: string)
    requires Ordered(a) && b.claims == a.claims && (forall x :: x in a.claims ==> x in a.all)
    requires b.all == a.all || (id !in a.all && id in b.all && b.all == a.all[id := b.all[id]])
    ensures Ordered(b)
  {
    forall i, j | 0 <= i < j < |b.claims|
      ensures NotOlder(b.all, b.claims[i], b.claims[j])
    {
      assert a.claims[i] in a.claims && a.claims[j] in a.claims;
      assert NotOlder(a.all, a.claims[i], a.claims[j]);
    }
  }

  lemma AheadGrows(s: Broker, t: Broker, r: Request, id: string, now: int)
    requires Ahead(s) && NoneAfter(s.past.all, now) && t.past.claims == s.past.claims && (forall x :: x in s.past.claims ==> x in s.past.all)
    requires t.past.all == s.past.all || (id !in s.past.all && t.past.all == s.past.all[id := Fresh(r, now)])
    requires forall x :: x in t.core.sessions ==> (x in s.core.sessions && t.core.sessions[x] == s.core.sessions[x]) || t.core.sessions[x] == Fresh(r, now)
    ensures Ahead(t)
  {
  }

  lemma CreateShape(s: Broker, r: Request, id: string, now: int)
    ensures var t := Apply(s, Create(r, id, now));
      && t.past.claims == s.past.claims
      && (t.past.all == s.past.all || (id !in s.past.all && t.past.all == s.past.all[id := Fresh(r, now)]))
      && (forall x :: x in t.core.sessions ==> (x in s.core.sessions && t.core.sessions[x] == s.core.sessions[x]) || t.core.sessions[x] == Fresh(r, now))
  {
    CreateIsRegion(s, r, id, now);
    CreateKeeps(s.core, r, id, now);
  }

  /** Any step but a Create. */
  lemma QuietOrder(s: Broker, step: Step)
    requires Inv(s) && Ordered(s.past) && Ahead(s) && !step.Create?
    ensures Ordered(Apply(s, step).past) && Ahead(Apply(s, step)) && Apply(s, step).past.all == s.past.all
  {
    if step.Scan? {
      ScanPast(s, step.p, step.pick, step.now);
      if Apply(s, step).past.claims != s.past.claims {
        ClaimOrder(s, step.p, step.pick, step.now);
      } else {
        OtherOrder(s, step);
      }
    } else {
      OthersClaimNothing(s, step);
      OtherOrder(s, step);
    }
  }

  lemma {:induction false} RunOrdered(s: Broker, steps: seq<Step>, time: int)
    requires Inv(s) && Ordered(s.past) && Ahead(s) && NoneAfter(s.past.all, time)
    requires InClockOrder(steps) && NotBefore(steps, time)
    ensures Ordered(RunFrom(s, steps).past)
    decreases |steps|
  {
    if steps != [] {
      var step, rest := steps[0], steps[1..];
      StepInv(s, step);
      assert forall i :: 0 <= i < |rest| ==> rest[i] == steps[i + 1];
      if step.Create? {
        CreateOrder(s, step.request, step.id, step.now, time);
        RunOrdered(Apply(s, step), rest, step.now);
      } else {
        QuietOrder(s, step);
        RunOrdered(Apply(s, step), rest, time);
      }
    }
  }

  /** The first time of any Create. */
  function Earliest(steps: seq<Step>): (r: int)
    ensures InClockOrder(steps) ==> NotBefore(steps, r)
  {
    if steps == [] then 0
    else if steps[0].Create? then steps[0].now
    else
      var r := Earliest(steps[1..]);
      assert InClockOrder(steps) ==> InClockOrder(steps[1..]) by {
        assert forall i :: 0 <= i < |steps[1..]| ==> steps[1..][i] == steps[i + 1];
      }
      assert forall i :: 0 < i < |steps| ==> steps[i] == steps[1..][i - 1];
      r
  }

  /** Over any run in which the calls of `Create` take the lock in the order in which they read the clock,
      every agent is handed its offers in the order of their creation, whatever expires or is finished in
      between and however many polls there are. */
  lemma OldestFirst(steps: seq<Step>)
    requires InClockOrder(steps)
    ensures Ordered(Run(steps).past)
  {
    RunOrdered(START, steps, Earliest(steps));
  }

  // ----- exactly -----

  /** The guard: an accepted Create whose clock reading is older than an offer its agent was handed. */
  ghost predicate Overtaken(s: Broker, r: Request, id: string, now: int) {
    && Apply(s, Create(r, id, now)).past.all != s.past.all
    && exists x :: x in s.past.claims && x in s.past.all && s.past.all[x].agent == r.agent && s.past.all[x].createdAt > now
  }

  /** Only such a Create puts an older offer behind a younger one. */
  lemma AheadExactly(s: Broker, r: Request, id: string, now: int)
    requires Inv(s) && Ahead(s)
    ensures Ahead(Apply(s, Create(r, id, now))) <==> !Overtaken(s, r, id, now)
  {
    var t := Apply(s, Create(r, id, now));
    CreateShape(s, r, id, now);
    AcceptedWaits(s, r, id, now);
    assert forall x :: x in s.past.claims ==> x in s.past.all && x in t.past.all && t.past.all[x] == s.past.all[x];
    if Overtaken(s, r, id, now) {
      var x :| x in s.past.claims && x in s.past.all && s.past.all[x].agent == r.agent && s.past.all[x].createdAt > now;
      assert x in t.past.claims && Waiting(t.core.sessions[id], t.past.all[x].agent);
    }
  }

  lemma AcceptedWaits(s: Broker, r: Request, id: string, now: int)
    ensures var t := Apply(s, Create(r, id, now));
      && (t.past.all != s.past.all ==> id in t.core.sessions && t.core.sessions[id] == Fresh(r, now))
      && (t.past.all == s.past.all ==> forall x :: x in t.core.sessions ==> x in s.core.sessions && t.core.sessions[x] == s.core.sessions[x])
  {
  }

  predicate NoCreate(steps: seq<Step>) {
    forall i :: 0 <= i < |steps| ==> !steps[i].Create?
  }

  lemma {:induction false} StaysOrdered(s: Broker, steps: seq<Step>)
    requires Inv(s) && Ordered(s.past) && Ahead(s) && NoCreate(steps)
    ensures Ordered(RunFrom(s, steps).past)
    decreases |steps|
  {
    if steps != [] {
      StepInv(s, steps[0]);
      QuietOrder(s, steps[0]);
      StaysOrdered(Apply(s, steps[0]), steps[1..]);
    }
  }

  lemma {:induction false} FirstOf(sessions: Sessions, ids: set<string>) returns (y: string)
    requires ids != {} && ids <= sessions.Keys
    ensures y in ids && forall x :: x in ids ==> sessions[y].createdAt <= sessions[x].createdAt
  {
    y :| y in ids;
    if ids != {y} {
      var z := FirstOf(sessions, ids - {y});
      if sessions[z].createdAt < sessions[y].createdAt {
        y := z;
      }
    }
  }

  lemma OldestExists(sessions: Sessions, agent: string, x: string) returns (y: string)
    requires x in sessions && Waiting(sessions[x], agent)
    ensures Oldest(sessions, agent, y) && sessions[y].createdAt <= sessions[x].createdAt
  {
    var ids := set id | id in sessions && Waiting(sessions[id], agent);
    assert x in ids;
    y := FirstOf(sessions, ids);
  }

  lemma {:induction false} FreePoller(taken: set<nat>) returns (p: nat)
    ensures forall q :: q in taken ==> q < p
  {
    p := 0;
    if taken != {} {
      var q :| q in taken;
      var m := FreePoller(taken - {q});
      p := if q < m then m else q + 1;
      assert taken == (taken - {q}) + {q};
    }
  }

  /** A waiting offer that is older than one already handed out can be handed out next. */
  lemma GetsOutOfOrder(s: Broker, id: string, x: string) returns (steps: seq<Step>)
    requires Inv(s) && id in s.past.claims && id in s.past.all && x in s.core.sessions
    requires Waiting(s.core.sessions[x], s.past.all[id].agent) && s.past.all[id].createdAt > s.core.sessions[x].createdAt
    ensures NoCreate(steps) && !Ordered(RunFrom(s, steps).past)
  {
    var agent, now := s.past.all[id].agent, s.core.sessions[x].createdAt;
    var kept := Pruned(s.core.sessions, now);
    assert x in kept;
    var y := OldestExists(kept, agent, x);
    var p := FreePoller(s.pollers.Keys);
    var a := Apply(s, Enter(p, agent));
    ScanTakes(a, p, agent, y, now);
    PickedIsRecorded(s, y, agent, now);
    steps := [Enter(p, agent), Scan(p, y, now)];
    RunTwo(s, steps[0], steps[1], []);
    assert steps + [] == steps;
    var t := Apply(a, Scan(p, y, now));
    var k :| 0 <= k < |s.past.claims| && s.past.claims[k] == id;
    assert t.past.claims[k] == id && t.past.claims[|s.past.claims|] == y;
    assert !NotOlder(t.past.all, id, y);
  }

  /** The exact condition: the offers that are there can be handed out in the wrong order if and only if one
      that waits is older than one its agent was handed. */
  lemma OrderExactly(s: Broker)
    requires Inv(s) && Ordered(s.past)
    ensures (exists steps :: NoCreate(steps) && !Ordered(RunFrom(s, steps).past)) <==> !Ahead(s)
  {
    if Ahead(s) {
      forall steps | NoCreate(steps)
        ensures Ordered(RunFrom(s, steps).past)
      {
        StaysOrdered(s, steps);
      }
    } else {
      var id, x :| id in s.past.claims && id in s.past.all && x in s.core.sessions
        && Waiting(s.core.sessions[x], s.past.all[id].agent) && s.past.all[id].createdAt > s.core.sessions[x].createdAt;
      var steps := GetsOutOfOrder(s, id, x);
    }
  }

  // ----- an instance -----

  lemma ScanTakes(s: Broker, p: nat, agent: string, id: string, now: int)
    requires p in s.pollers && s.pollers[p] == Poller(agent, Scanning) && Oldest(Pruned(s.core.sessions, now), agent, id)
    ensures var t := Apply(s, Scan(p, id, now));
      && t.core == DoClaim(s.core, id, now) && t.pollers == s.pollers - {p}
      && t.past == s.past.(claims := s.past.claims + [id], handedTo := s.past.handedTo[id := agent])
  {
  }

  lemma FirstHanded(agent: string) returns (s: Broker)
    requires ValidOpaqueId(agent)
    ensures s == Apply(Apply(Apply(START, Create(Ask(agent), "x", 6)), Enter(0, agent)), Scan(0, "x", 6))
    ensures s.core.sessions == map["x" := Fresh(Ask(agent), 6).(claimed := true)]
    ensures s.pollers == map[] && s.past.all == map["x" := Fresh(Ask(agent), 6)] && s.past.claims == ["x"]
  {
    Created(START, agent, "x", 6);
    var a := Apply(START, Create(Ask(agent), "x", 6));
    assert a.core.sessions == map["x" := Fresh(Ask(agent), 6)];
    var b := Apply(a, Enter(0, agent));
    assert Pruned(b.core.sessions, 6) == b.core.sessions;
    assert Oldest(Pruned(b.core.sessions, 6), agent, "x");
    ScanTakes(b, 0, agent, "x", 6);
    s := Apply(b, Scan(0, "x", 6));
    assert a.past.claims == [];
  }

  /** The overtaken Create enters its offer beside the one already handed out. */
  lemma SecondEntered(s: Broker, agent: string) returns (b: Broker)
    requires ValidOpaqueId(agent) && s.core.sessions == map["x" := Fresh(Ask(agent), 6).(claimed := true)]
    requires s.pollers == map[] && s.past.all == map["x" := Fresh(Ask(agent), 6)] && s.past.claims == ["x"]
    ensures b == Apply(Apply(s, Create(Ask(agent), "y", 5)), Enter(1, agent))
    ensures b.core.sessions == map["x" := Fresh(Ask(agent), 6).(claimed := true), "y" := Fresh(Ask(agent), 5)]
    ensures b.pollers == map[1 := Poller(agent, Scanning)] && b.past.claims == ["x"]
    ensures b.past.all == map["x" := Fresh(Ask(agent), 6), "y" := Fresh(Ask(agent), 5)]
  {
    Created(s, agent, "y", 5);
    var a := Apply(s, Create(Ask(agent), "y", 5));
    CreateShape(s, Ask(agent), "y", 5);
    assert Pruned(s.core.sessions, 5) == s.core.sessions;
    b := Apply(a, Enter(1, agent));
  }

  lemma SecondHanded(b: Broker, agent: string) returns (t: Broker)
    requires b.core.sessions == map["x" := Fresh(Ask(agent), 6).(claimed := true), "y" := Fresh(Ask(agent), 5)]
    requires b.pollers == map[1 := Poller(agent, Scanning)] && b.past.claims == ["x"]
    requires b.past.all == map["x" := Fresh(Ask(agent), 6), "y" := Fresh(Ask(agent), 5)]
    ensures t == Apply(b, Scan(1, "y", 6)) && t.past.claims == ["x", "y"] && t.past.all == b.past.all
  {
    assert Pruned(b.core.sessions, 6) == b.core.sessions;
    assert Oldest(Pruned(b.core.sessions, 6), agent, "y");
    ScanTakes(b, 1, agent, "y", 6);
    t := Apply(b, Scan(1, "y", 6));
  }

  /** `Create` reads the clock before it takes the lock.  A call that is overtaken in between enters an offer
      that is older than one already handed out: the agent gets them the wrong way round. */
  lemma OvertakenCreate(agent: string)
    requires ValidOpaqueId(agent)
    ensures !Ordered(Run([Create(Ask(agent), "x", 6), Enter(0, agent), Scan(0, "x", 6)]
                         + [Create(Ask(agent), "y", 5), Enter(1, agent), Scan(1, "y", 6)]).past)
  {
    var first := [Create(Ask(agent), "x", 6), Enter(0, agent), Scan(0, "x", 6)];
    var second := [Create(Ask(agent), "y", 5), Enter(1, agent), Scan(1, "y", 6)];
    var s := FirstHanded(agent);
    var b := SecondEntered(s, agent);
    var t := SecondHanded(b, agent);
    RunThree(START, first[0], first[1], first[2]);
    RunThree(s, second[0], second[1], second[2]);
    RunAppend(START, first, second);
    assert !NotOlder(t.past.all, t.past.claims[0], t.past.claims[1]);
  }

  lemma RunThree(s: Broker, a: Step, b: Step, c: Step)
    ensures RunFrom(s, [a, b, c]) == Apply(Apply(Apply(s, a), b), c)
  {
    RunAppend(s, [a, b], [c]);
    RunAppend(s, [a], [b]);
    assert [a, b] + [c] == [a, b, c] && [a] + [b] == [a, b];
  }
}
