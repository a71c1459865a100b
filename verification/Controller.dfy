/** `createConnection` and the other handlers that work on the session store and the signaling broker
    together: steps of either interleave freely, and an authorised session call hands its record to
    the broker. */
module Controller {
  import opened Clock
  import opened OpaqueId
  import opened Store
  import Ses = Sessions
  import Steps = SessionSteps
  import Sig = Signaling
  import Runs = SignalingRuns

  datatype Ctl = Ctl(sys: Ses.Sys, broker: Sig.Broker)

  const START := Ctl(Ses.START, Sig.START)

  datatype Step =
    | OnStore(store: Ses.Step)
    | OnBroker(signal: Sig.Step)
    | Connect(tid: nat, service: string, offer: string, offerOk: bool, restartOf: string, id: string, now: int)

  /** The request that `createConnection` builds from the record its session call returned. */
  function RequestOf(user: Digest, r: Record, offer: string, offerOk: bool, restartOf: string): Sig.Request {
    Sig.Request(r.agent, r.id, r.service, user, r.token, offer, offerOk, restartOf, r.temporary)
  }

  /** Create answers a new connection, Lookup a restart; either is for the service that was asked for. */
  predicate Ready(s: Ctl, tid: nat, service: string, restartOf: string) {
    && tid in s.sys.threads
    && var t := s.sys.threads[tid];
       && t.stage.Finished? && t.stage.result.Some?
       && if restartOf == "" then t.call.Create? && t.call.service == service else t.call.Lookup? && t.stage.result.value.service == service
  }

  ghost function Apply(s: Ctl, step: Step): Ctl {
    match step
    case OnStore(store) => s.(sys := Ses.Apply(s.sys, store))
    case OnBroker(signal) => if signal.Create? then s else s.(broker := Sig.Apply(s.broker, signal))
    case Connect(tid, service, offer, offerOk, restartOf, id, now) =>
      if !Ready(s, tid, service, restartOf) then s
      else
        var t := s.sys.threads[tid];
        s.(broker := Sig.Apply(s.broker, Sig.Create(RequestOf(t.user, t.stage.result.value, offer, offerOk, restartOf), id, now)))
  }

  ghost function RunFrom(s: Ctl, steps: seq<Step>): Ctl
    decreases |steps|
  {
    if steps == [] then s else RunFrom(Apply(s, steps[0]), steps[1..])
  }

  ghost function Run(steps: seq<Step>): Ctl {
    RunFrom(START, steps)
  }

  // ----- the two parts -----

  /** What the controller's steps do to the store. */
  function StoreSteps(steps: seq<Step>): seq<Ses.Step>
    decreases |steps|
  {
    if steps == [] then []
    else (if steps[0].OnStore? then [steps[0].store] else []) + StoreSteps(steps[1..])
  }

  /** What a step does to the broker: a connection request that is ready creates an offer, and no other step
      does. */
  ghost function BrokerPart(s: Ctl, step: Step): seq<Sig.Step> {
    match step
    case OnStore(_) => []
    case OnBroker(signal) => if signal.Create? then [] else [signal]
    case Connect(tid, service, offer, offerOk, restartOf, id, now) =>
      if !Ready(s, tid, service, restartOf) then []
      else
        var t := s.sys.threads[tid];
        [Sig.Create(RequestOf(t.user, t.stage.result.value, offer, offerOk, restartOf), id, now)]
  }

  ghost function BrokerSteps(s: Ctl, steps: seq<Step>): seq<Sig.Step>
    decreases |steps|
  {
    if steps == [] then [] else BrokerPart(s, steps[0]) + BrokerSteps(Apply(s, steps[0]), steps[1..])
  }

  lemma StoreCons(sys: Ses.Sys, step: Ses.Step, rest: seq<Ses.Step>)
    ensures Ses.RunFrom(sys, [step] + rest) == Ses.RunFrom(Ses.Apply(sys, step), rest)
  {
    assert ([step] + rest)[1..] == rest;
  }

  lemma BrokerCons(broker: Sig.Broker, step: Sig.Step, rest: seq<Sig.Step>)
    ensures Sig.RunFrom(broker, [step] + rest) == Sig.RunFrom(Sig.Apply(broker, step), rest)
  {
    assert ([step] + rest)[1..] == rest;
  }

  lemma StoreStepIs(s: Ctl, step: Step)
    ensures Apply(s, step).sys == if step.OnStore? then Ses.Apply(s.sys, step.store) else s.sys
  {
  }

  lemma {:induction false} StorePartFrom(s: Ctl, steps: seq<Step>)
    ensures RunFrom(s, steps).sys == Ses.RunFrom(s.sys, StoreSteps(steps))
    decreases |steps|
  {
    if steps != [] {
      var rest := StoreSteps(steps[1..]);
      StorePartFrom(Apply(s, steps[0]), steps[1..]);
      StoreStepIs(s, steps[0]);
      if steps[0].OnStore? {
        StoreCons(s.sys, steps[0].store, rest);
      } else {
        assert [] + rest == rest;
      }
    }
  }

  lemma BrokerStepIs(s: Ctl, step: Step)
    ensures var part := BrokerPart(s, step);
      |part| <= 1 && Apply(s, step).broker == if part == [] then s.broker else Sig.Apply(s.broker, part[0])
  {
  }

  lemma {:induction false} BrokerPartFrom(s: Ctl, steps: seq<Step>)
    ensures RunFrom(s, steps).broker == Sig.RunFrom(s.broker, BrokerSteps(s, steps))
    decreases |steps|
  {
    if steps != [] {
      var t, part := Apply(s, steps[0]), BrokerPart(s, steps[0]);
      BrokerPartFrom(t, steps[1..]);
      BrokerStepIs(s, steps[0]);
      if part == [] {
        assert part + BrokerSteps(t, steps[1..]) == BrokerSteps(t, steps[1..]);
      } else {
        assert part == [part[0]];
        BrokerCons(s.broker, part[0], BrokerSteps(t, steps[1..]));
      }
    }
  }

  /** Every run of the controller is a run of the store beside a run of the broker, in which every offer was
      created for a ready connection request; so their theorems hold of both parts. */
  lemma ControllerParts(steps: seq<Step>)
    ensures Run(steps).sys == Ses.Run(StoreSteps(steps)) && Run(steps).broker == Sig.Run(BrokerSteps(START, steps))
  {
    StorePartFrom(START, steps);
    BrokerPartFrom(START, steps);
  }

  // ----- agreement -----

  /** The entry is backed by a browser session row: same owner, agent, service and token digest, a
      service of that agent, and the kind the service was made with. */
  predicate Backed(sys: Ses.Sys, e: Sig.Entry) {
    && e.browserSession in sys.db.sessions && e.service in sys.db.services
    && RowBacks(sys.db.sessions[e.browserSession], e)
    && sys.db.services[e.service].agent == e.agent
    && (e.temporary <==> e.service in sys.temporary)
  }

  predicate RowBacks(row: SessionRow, e: Sig.Entry) {
    row.user == e.user && row.agent == e.agent && row.service == e.service && row.token == e.capability
  }

  ghost predicate Agrees(s: Ctl) {
    forall id :: id in s.broker.past.all ==> Backed(s.sys, s.broker.past.all[id])
  }

  ghost predicate Inv(s: Ctl) {
    Ses.Inv(s.sys) && Sig.Inv(s.broker) && Agrees(s)
  }

  lemma BackedStays(s: Ses.Sys, t: Ses.Sys, e: Sig.Entry)
    requires Ses.Grows(s, t) && Backed(s, e)
    ensures Backed(t, e)
  {
    assert Ses.SameRow(s.db.sessions[e.browserSession], t.db.sessions[e.browserSession]);
  }

  lemma StoreStep(s: Ctl, store: Ses.Step)
    requires Inv(s)
    ensures Inv(Apply(s, OnStore(store)))
  {
    Steps.StepInv(s.sys, store);
    var t := Ses.Apply(s.sys, store);
    forall id | id in s.broker.past.all
      ensures Backed(t, s.broker.past.all[id])
    {
      BackedStays(s.sys, t, s.broker.past.all[id]);
    }
  }

  lemma BrokerKeepsHistory(s: Sig.Broker, signal: Sig.Step)
    requires !signal.Create?
    ensures Sig.Apply(s, signal).past.all == s.past.all
  {
  }

  lemma BrokerStep(s: Ctl, signal: Sig.Step)
    requires Inv(s)
    ensures Inv(Apply(s, OnBroker(signal)))
  {
    if !signal.Create? {
      Sig.StepInv(s.broker, signal);
      BrokerKeepsHistory(s.broker, signal);
    }
  }

  /** Creating adds at most the one entry built from the request. */
  lemma CreateAdds(s: Sig.Broker, r: Sig.Request, id: string, now: int)
    ensures var all := Sig.Apply(s, Sig.Create(r, id, now)).past.all;
      all == s.past.all || all == s.past.all[id := Sig.Fresh(r, now)]
  {
  }

  /** The record of a finished call backs the entry it is turned into. */
  lemma RecordBacks(sys: Ses.Sys, t: Thread, offer: string, offerOk: bool, restartOf: string, now: int)
    requires Ses.Inv(sys) && Ses.ThreadOk(sys, t) && t.stage.Finished? && t.stage.result.Some?
    ensures Backed(sys, Sig.Fresh(RequestOf(t.user, t.stage.result.value, offer, offerOk, restartOf), now))
  {
    var r := t.stage.result.value;
    assert Ses.SessionOk(sys.db.sessions[r.id], sys.db.services, sys.born[r.id], sys.renewed[r.id]);
  }

  lemma ConnectStep(s: Ctl, step: Step)
    requires Inv(s) && step.Connect? && Ready(s, step.tid, step.service, step.restartOf)
    ensures Inv(Apply(s, step))
  {
    var t := s.sys.threads[step.tid];
    var r := RequestOf(t.user, t.stage.result.value, step.offer, step.offerOk, step.restartOf);
    Sig.StepInv(s.broker, Sig.Create(r, step.id, step.now));
    CreateAdds(s.broker, r, step.id, step.now);
    RecordBacks(s.sys, t, step.offer, step.offerOk, step.restartOf, step.now);
  }

  lemma {:induction false} RunFromInv(s: Ctl, steps: seq<Step>)
    requires Inv(s)
    ensures Inv(RunFrom(s, steps))
    decreases |steps|
  {
    if steps != [] {
      match steps[0]
      case OnStore(store) =>
        StoreStep(s, store);
        RunFromInv(Apply(s, steps[0]), steps[1..]);
      case OnBroker(signal) =>
        BrokerStep(s, signal);
        RunFromInv(Apply(s, steps[0]), steps[1..]);
      case Connect(tid, service, _, _, restartOf, _, _) =>
        if Ready(s, tid, service, restartOf) { ConnectStep(s, steps[0]); }
        RunFromInv(Apply(s, steps[0]), steps[1..]);
    }
  }

  /** Broker and store agree in every reachable state: each entry the broker holds, and each it ever
      held, matches an existing browser session in owner, agent, service and token digest. */
  lemma BrokerAgreesWithStore(steps: seq<Step>, id: string)
    requires id in Run(steps).broker.core.sessions
    ensures Backed(Run(steps).sys, Run(steps).broker.core.sessions[id])
  {
    RunFromInv(START, steps);
    var s := Run(steps);
    assert Sig.SameOrigin(s.broker.core.sessions[id], s.broker.past.all[id]);
    assert Backed(s.sys, s.broker.past.all[id]);
  }

  /** Every offer ever handed to an agent's poll came from the owner of a session for the agent that
      received it, and so did the whole restart chain behind it. */
  lemma HandedOffersAreOwned(steps: seq<Step>, id: string, k: nat)
    requires id in Run(steps).broker.past.claims
    ensures var s := Run(steps);
      && id in s.broker.past.all && Backed(s.sys, s.broker.past.all[id])
      && id in s.broker.past.handedTo && s.broker.past.handedTo[id] == s.broker.past.all[id].agent
      && s.broker.past.all[id].browserSession in s.sys.db.sessions
      && s.sys.db.sessions[s.broker.past.all[id].browserSession].agent == s.broker.past.handedTo[id]
    ensures var all := Run(steps).broker.past.all; Runs.Ancestor(all, id, k).Some? ==>
      var a := Runs.Ancestor(all, id, k).value;
      a in all && Sig.SameParty(all[a], all[id]) && Backed(Run(steps).sys, all[a])
  {
    RunFromInv(START, steps);
    HandedToItsAgent(Run(steps), id);
    ChainIsBacked(Run(steps), id, k);
  }

  lemma HandedToItsAgent(s: Ctl, id: string)
    requires Inv(s) && id in s.broker.past.claims
    ensures var past := s.broker.past;
      && id in past.all && id in past.handedTo && past.handedTo[id] == past.all[id].agent
      && Backed(s.sys, past.all[id])
  {
  }

  lemma ChainIsBacked(s: Ctl, id: string, k: nat)
    requires Inv(s) && id in s.broker.past.all
    ensures var all := s.broker.past.all; Runs.Ancestor(all, id, k).Some? ==>
      var a := Runs.Ancestor(all, id, k).value;
      a in all && Sig.SameParty(all[a], all[id]) && Backed(s.sys, all[a])
  {
    Runs.ChainSummary(s.broker.past.all, s.broker.past.birth, id, k);
  }

  /** The identifiers are well formed and the digests are not empty. */
  predicate WellFormed(user: Digest, r: Record) {
    && ValidOpaqueId(r.agent) && ValidOpaqueId(r.id) && ValidOpaqueId(r.service)
    && (exists i :: 0 <= i < 32 && user[i] != 0) && (exists i :: 0 <= i < 32 && r.token[i] != 0)
  }

  /** The entry is of the record's party. */
  predicate OfParty(e: Sig.Entry, user: Digest, r: Record) {
    && e.agent == r.agent && e.browserSession == r.id && e.service == r.service && e.user == user
    && e.capability == r.token && e.temporary == r.temporary
  }

  lemma ValidExactly(user: Digest, r: Record, offer: string, offerOk: bool, restartOf: string)
    ensures Sig.ValidRequest(RequestOf(user, r, offer, offerOk, restartOf)) <==> offerOk && WellFormed(user, r)
  {
  }

  lemma CreatedExactly(b: Sig.Broker, q: Sig.Request, id: string, now: int)
    requires id !in b.past.all && id != ""
    ensures var t := Sig.Apply(b, Sig.Create(q, id, now));
      && (id in t.past.all <==> Sig.MayCreate(Sig.Pruned(b.core.sessions, now), q, now))
      && (id in t.past.all ==> id in t.core.sessions && t.core.sessions[id] == Sig.Fresh(q, now))
  {
  }

  /** A connection request reaches the broker: with a new identifier, a finished Create brings a new offer, and
      a finished Lookup a restart of a live offer of the same party, if and only if the call was for the service
      that was asked for, the description is sound and the record well formed.  The offer carries the record and
      waits for the record's agent. */
  lemma ConnectExactly(s: Ctl, tid: nat, service: string, offer: string, offerOk: bool, restartOf: string, id: string, now: int)
    requires tid in s.sys.threads && s.sys.threads[tid].stage.Finished? && s.sys.threads[tid].stage.result.Some?
    requires id !in s.broker.past.all && id != ""
    ensures var u := s.sys.threads[tid]; var r := u.stage.result.value;
      var t := Apply(s, Connect(tid, service, offer, offerOk, restartOf, id, now)); var live := Sig.Pruned(s.broker.core.sessions, now);
      && t.sys == s.sys
      && (id in t.broker.past.all <==>
            && offerOk && WellFormed(u.user, r)
            && if restartOf == "" then u.call.Create? && u.call.service == service
               else u.call.Lookup? && r.service == service && restartOf in live && OfParty(live[restartOf], u.user, r))
      && (id in t.broker.past.all ==>
            && id in t.broker.core.sessions
            && t.broker.core.sessions[id]
               == Sig.Entry(r.agent, r.id, r.service, u.user, r.token, offer, restartOf, r.temporary, now, false, Sig.Pending))
  {
    var u := s.sys.threads[tid];
    var r := u.stage.result.value;
    ValidExactly(u.user, r, offer, offerOk, restartOf);
    CreatedExactly(s.broker, RequestOf(u.user, r, offer, offerOk, restartOf), id, now);
  }
}
