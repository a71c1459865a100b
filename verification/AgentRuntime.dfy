/** The Agent's peers: the sequential offer loop with its restarts, and peers being closed at any
    moment.  One step for every region that runs under a lock; peers are numbered as they are created. */
module AgentRuntime {
  import opened OpaqueId
  import opened Options
  import opened AgentPolicy
  import opened Clock
  import D = AgentDial

  const MAX_RESTARTS: nat := 2

  /** `signaling.Offer` as the Agent reads it: the digest is None when its text does not decode, and
      `sound` is the verdict on the session description. */
  datatype Offer = Offer(id: string, restartOf: string, service: string, digest: Option<Digest>, temporary: bool, sound: bool)

  datatype Closing = NotClosing | Closing(ids: set<string>) | Closed

  datatype Peer = Peer(
    service: string,
    digest: Digest,
    temporary: bool,
    restartCount: nat,
    aliases: set<string>,
    taken: seq<Offer>,      // the offers it answered, in order
    closing: Closing
  )

  /** The offer loop is between `newPeer` or `beginRestart` and the end of `addAlias`. */
  datatype Busy = Idle | Applying(peer: nat, offer: Offer) | Registering(peer: nat, offer: Offer)

  datatype Agent = Agent(peers: map<string, nat>, all: seq<Peer>, busy: Busy)

  const START := Agent(map[], [], Idle)

  datatype Step =
    | Begin(offer: Offer, setUp: bool)
    | Applied(ok: bool)
    | Register
    | CloseStart(p: nat)
    | CloseEnd(p: nat)

  /** What `acceptOffer` asks of the description, the digest and the policy. */
  predicate Admits(policy: Policy, offer: Offer) {
    && offer.sound && offer.digest.Some?
    && if offer.temporary then policy.temporary.Some? && ValidOpaqueId(offer.service) else offer.service in policy.byId
  }

  /** For a valid configuration, an offer is admitted if and only if its description and digest are sound and it is
      for a configured service or, where temporary services are configured, for a well-formed identifier. */
  lemma AdmitsExactly(env: Env, c: Config, offer: Offer)
    requires GoodConfig(env, c)
    ensures Admits(PolicyOf(env, c), offer) <==>
      && offer.sound && offer.digest.Some?
      && if offer.temporary then c.temporary.Some? && ValidOpaqueId(offer.service)
         else exists i :: 0 <= i < |c.services| && c.services[i].id == offer.service
  {
    D.ByIdExact(env, c.services, offer.service);
  }

  predicate SameAuthority(peer: Peer, offer: Offer) {
    offer.digest == Some(peer.digest) && offer.service == peer.service && offer.temporary == peer.temporary
  }

  /** The peer that a restart offer may continue. */
  predicate Restarts(s: Agent, offer: Offer) {
    && offer.restartOf in s.peers && s.peers[offer.restartOf] < |s.all|
    && var peer := s.all[s.peers[offer.restartOf]];
       SameAuthority(peer, offer) && peer.restartCount < MAX_RESTARTS
  }

  function NewPeer(offer: Offer): Peer
    requires offer.digest.Some?
  {
    Peer(offer.service, offer.digest.value, offer.temporary, 0, {}, [], NotClosing)
  }

  function CountRestart(peer: Peer): Peer {
    peer.(restartCount := peer.restartCount + 1)
  }

  function Take(peer: Peer, offer: Offer): Peer {
    peer.(aliases := peer.aliases + {offer.id}, taken := peer.taken + [offer])
  }

  function StartClosing(peer: Peer): Peer {
    if peer.closing.NotClosing? then peer.(closing := Closing(peer.aliases)) else peer
  }

  function Drop(peers: map<string, nat>, p: nat, ids: set<string>): map<string, nat> {
    map id | id in peers && !(id in ids && peers[id] == p) :: peers[id]
  }

  function Change(s: Agent, p: nat, peer: Peer): Agent
    requires p < |s.all|
  {
    s.(all := s.all[p := peer])
  }

  function Apply(policy: Policy, s: Agent, step: Step): Agent {
    match step
    case Begin(offer, setUp) =>
      if !s.busy.Idle? || !Admits(policy, offer) then s
      else if offer.restartOf == "" then
        if setUp then s.(all := s.all + [NewPeer(offer)], busy := Applying(|s.all|, offer)) else s
      else if Restarts(s, offer) then
        var p := s.peers[offer.restartOf];
        Change(s, p, CountRestart(s.all[p])).(busy := Applying(p, offer))
      else s
    case Applied(ok) =>
      if !s.busy.Applying? || s.busy.peer >= |s.all| then s
      else
        var p := s.busy.peer;
        if ok then Change(s, p, Take(s.all[p], s.busy.offer)).(busy := Registering(p, s.busy.offer))
        else if s.busy.offer.restartOf == "" then Change(s, p, StartClosing(s.all[p])).(busy := Idle)
        else s.(busy := Idle)
    case Register =>
      if !s.busy.Registering? then s else s.(peers := s.peers[s.busy.offer.id := s.busy.peer], busy := Idle)
    case CloseStart(p) => if p < |s.all| then Change(s, p, StartClosing(s.all[p])) else s
    case CloseEnd(p) =>
      if p < |s.all| && s.all[p].closing.Closing? then
        Change(s, p, s.all[p].(closing := Closed)).(peers := Drop(s.peers, p, s.all[p].closing.ids))
      else s
  }

  function RunFrom(policy: Policy, s: Agent, steps: seq<Step>): Agent
    decreases |steps|
  {
    if steps == [] then s else RunFrom(policy, Apply(policy, s, steps[0]), steps[1..])
  }

  function Run(policy: Policy, steps: seq<Step>): Agent {
    RunFrom(policy, START, steps)
  }

  // ----- what every step keeps -----

  ghost predicate TakenOk(policy: Policy, peer: Peer) {
    && (forall k :: 0 <= k < |peer.taken| ==> Admits(policy, peer.taken[k]) && SameAuthority(peer, peer.taken[k]))
    && peer.aliases == (set k | 0 <= k < |peer.taken| :: peer.taken[k].id)
  }

  /** The first offer opened the peer; every other one names an earlier one of the same peer. */
  ghost predicate Chained(taken: seq<Offer>) {
    forall k :: 0 <= k < |taken| ==>
      if k == 0 then taken[k].restartOf == "" else exists j :: 0 <= j < k && taken[j].id == taken[k].restartOf
  }

  /** Room for one more offer while the loop applies it. */
  predicate Budget(peer: Peer, applying: bool) {
    |peer.taken| + (if applying then 1 else 0) <= 1 + peer.restartCount <= 1 + MAX_RESTARTS
  }

  ghost predicate PeerOk(policy: Policy, peer: Peer, applying: bool) {
    TakenOk(policy, peer) && Chained(peer.taken) && Budget(peer, applying)
  }

  /** The offer being applied continues what the peer has taken. */
  ghost predicate Continues(policy: Policy, peer: Peer, offer: Offer) {
    && Admits(policy, offer) && SameAuthority(peer, offer)
    && if offer.restartOf == "" then peer.taken == [] else peer.taken != [] && offer.restartOf in peer.aliases
  }

  predicate IsApplying(s: Agent, p: int) {
    s.busy.Applying? && s.busy.peer == p
  }

  ghost predicate Inv(policy: Policy, s: Agent) {
    && (forall p :: 0 <= p < |s.all| ==> PeerOk(policy, s.all[p], IsApplying(s, p)))
    && (forall id :: id in s.peers ==> s.peers[id] < |s.all| && id in s.all[s.peers[id]].aliases)
    && (s.busy.Applying? ==> s.busy.peer < |s.all| && Continues(policy, s.all[s.busy.peer], s.busy.offer))
    && (s.busy.Registering? ==> s.busy.peer < |s.all| && s.busy.offer.id in s.all[s.busy.peer].aliases)
  }

  lemma ChainGrows(taken: seq<Offer>, offer: Offer)
    requires Chained(taken)
    requires if taken == [] then offer.restartOf == "" else exists j :: 0 <= j < |taken| && taken[j].id == offer.restartOf
    ensures Chained(taken + [offer])
  {
    var n, after := |taken|, taken + [offer];
    assert after[n] == offer && forall k :: 0 <= k < n ==> after[k] == taken[k];
    forall k | 0 < k <= n
      ensures exists j :: 0 <= j < k && after[j].id == after[k].restartOf
    {
      if k < n {
        assert taken[k].restartOf == after[k].restartOf;
        var j :| 0 <= j < k && taken[j].id == taken[k].restartOf;
        assert after[j].id == after[k].restartOf;
      } else {
        var j :| 0 <= j < n && taken[j].id == offer.restartOf;
        assert after[j].id == after[k].restartOf;
      }
    }
  }

  lemma TakenGrows(policy: Policy, peer: Peer, offer: Offer)
    requires TakenOk(policy, peer) && Admits(policy, offer) && SameAuthority(peer, offer)
    ensures TakenOk(policy, Take(peer, offer))
  {
    var after, n := Take(peer, offer), |peer.taken|;
    assert forall k :: 0 <= k < n ==> after.taken[k] == peer.taken[k];
    assert after.taken[n] == offer;
    assert after.aliases == (set k | 0 <= k <= n :: after.taken[k].id);
  }

  lemma TakeKeeps(policy: Policy, peer: Peer, offer: Offer)
    requires PeerOk(policy, peer, true) && Continues(policy, peer, offer)
    ensures PeerOk(policy, Take(peer, offer), false)
  {
    TakenGrows(policy, peer, offer);
    ChainGrows(peer.taken, offer);
  }

  lemma BeginInv(policy: Policy, s: Agent, offer: Offer, setUp: bool)
    requires Inv(policy, s)
    ensures Inv(policy, Apply(policy, s, Begin(offer, setUp)))
  {
    if s.busy.Idle? && Admits(policy, offer) && offer.restartOf != "" && Restarts(s, offer) {
      var p := s.peers[offer.restartOf];
      assert PeerOk(policy, s.all[p], false);
      assert PeerOk(policy, CountRestart(s.all[p]), true);
    }
  }

  lemma TakenInv(policy: Policy, s: Agent)
    requires Inv(policy, s) && s.busy.Applying?
    ensures var p := s.busy.peer;
      Inv(policy, Agent(s.peers, s.all[p := Take(s.all[p], s.busy.offer)], Registering(p, s.busy.offer)))
  {
    TakeKeeps(policy, s.all[s.busy.peer], s.busy.offer);
  }

  lemma AppliedInv(policy: Policy, s: Agent, ok: bool)
    requires Inv(policy, s)
    ensures Inv(policy, Apply(policy, s, Applied(ok)))
  {
    if s.busy.Applying? && ok {
      TakenInv(policy, s);
    } else if s.busy.Applying? && s.busy.offer.restartOf == "" {
      ClosingInv(policy, s, s.busy.peer, StartClosing(s.all[s.busy.peer]));
    }
  }

  /** Whether a peer is closing matters to nothing else. */
  lemma ClosingInv(policy: Policy, s: Agent, p: nat, peer: Peer)
    requires Inv(policy, s) && p < |s.all| && peer == s.all[p].(closing := peer.closing)
    ensures Inv(policy, Change(s, p, peer))
  {
    assert PeerOk(policy, s.all[p], IsApplying(s, p));
    assert PeerOk(policy, peer, IsApplying(s, p));
  }

  lemma CloseEndInv(policy: Policy, s: Agent, p: nat)
    requires Inv(policy, s) && p < |s.all|
    ensures Inv(policy, Apply(policy, s, CloseEnd(p)))
  {
    if s.all[p].closing.Closing? {
      ClosingInv(policy, s, p, s.all[p].(closing := Closed));
    }
  }

  lemma StepInv(policy: Policy, s: Agent, step: Step)
    requires Inv(policy, s)
    ensures Inv(policy, Apply(policy, s, step))
  {
    match step
    case Begin(offer, setUp) => BeginInv(policy, s, offer, setUp);
    case Applied(ok) => AppliedInv(policy, s, ok);
    case Register =>
    case CloseStart(p) => if p < |s.all| { ClosingInv(policy, s, p, StartClosing(s.all[p])); }
    case CloseEnd(p) => if p < |s.all| { CloseEndInv(policy, s, p); }
  }

  lemma {:induction false} RunFromInv(policy: Policy, s: Agent, steps: seq<Step>)
    requires Inv(policy, s)
    ensures Inv(policy, RunFrom(policy, s, steps))
    decreases |steps|
  {
    if steps != [] {
      StepInv(policy, s, steps[0]);
      RunFromInv(policy, Apply(policy, s, steps[0]), steps[1..]);
    }
  }

  // ----- the theorems -----

  /** In every run a peer is restarted at most twice and answers at most three offers; all of them were
      admitted by the policy and carry the service, the capability and the kind of the first, and each
      restart names an earlier offer of the same peer. */
  lemma RestartBudget(policy: Policy, steps: seq<Step>, p: nat)
    requires p < |Run(policy, steps).all|
    ensures var peer := Run(policy, steps).all[p];
      && peer.restartCount <= 2 && |peer.taken| <= 3 && |peer.aliases| <= 3
      && Chained(peer.taken)
      && (forall k :: 0 <= k < |peer.taken| ==> Admits(policy, peer.taken[k]) && SameAuthority(peer, peer.taken[k]))
  {
    RunFromInv(policy, START, steps);
    var peer := Run(policy, steps).all[p];
    assert PeerOk(policy, peer, IsApplying(Run(policy, steps), p));
    IdsAtMost(peer.taken, |peer.taken|);
  }

  lemma {:induction false} IdsAtMost(taken: seq<Offer>, n: nat)
    requires n <= |taken|
    ensures |set k | 0 <= k < n :: taken[k].id| <= n
  {
    if n > 0 {
      IdsAtMost(taken, n - 1);
      assert (set k | 0 <= k < n :: taken[k].id) == (set k | 0 <= k < n - 1 :: taken[k].id) + {taken[n - 1].id};
    }
  }

  /** An offer identifier in the table leads to a peer that answered an offer with this identifier. */
  lemma TableIsBacked(policy: Policy, steps: seq<Step>, id: string)
    requires id in Run(policy, steps).peers
    ensures var s := Run(policy, steps);
      s.peers[id] < |s.all| && exists k :: 0 <= k < |s.all[s.peers[id]].taken| && s.all[s.peers[id]].taken[k].id == id
  {
    RunFromInv(policy, START, steps);
    var s := Run(policy, steps);
    assert PeerOk(policy, s.all[s.peers[id]], IsApplying(s, s.peers[id]));
  }

  /** A restart is answered only by the peer its predecessor was answered by, under the same service,
      capability and kind, and it uses up one of that peer's two restarts. */
  lemma RestartContinues(policy: Policy, steps: seq<Step>, offer: Offer)
    requires Run(policy, steps).busy.Idle? && offer.restartOf != ""
    ensures var s := Run(policy, steps); var t := Apply(policy, s, Begin(offer, true));
      t != s ==> && offer.restartOf in s.peers && t.busy == Applying(s.peers[offer.restartOf], offer)
                 && s.peers[offer.restartOf] < |s.all| && |t.all| == |s.all|
                 && var before, after := s.all[s.peers[offer.restartOf]], t.all[s.peers[offer.restartOf]];
                    && after.restartCount == before.restartCount + 1 <= 2
                    && exists k :: 0 <= k < |before.taken| && before.taken[k].id == offer.restartOf
                         && before.taken[k].service == offer.service && before.taken[k].digest == offer.digest
                         && before.taken[k].temporary == offer.temporary
  {
    var s := Run(policy, steps);
    if Apply(policy, s, Begin(offer, true)) != s {
      TableIsBacked(policy, steps, offer.restartOf);
      RestartBudget(policy, steps, s.peers[offer.restartOf]);
    }
  }

  /** In every reachable state with the loop idle, a restart is granted if and only if the policy admits the
      offer, the offer it names was answered by a peer that is in the table, that peer has the same service,
      capability and kind, and it was restarted fewer than two times. */
  lemma RestartExactly(policy: Policy, steps: seq<Step>, offer: Offer, setUp: bool)
    requires Run(policy, steps).busy.Idle? && offer.restartOf != ""
    ensures var s := Run(policy, steps); var t := Apply(policy, s, Begin(offer, setUp));
      (t.busy == Idle ==> t == s) &&
      (t.busy.Applying? <==>
         && Admits(policy, offer) && offer.restartOf in s.peers && s.peers[offer.restartOf] < |s.all|
         && var peer := s.all[s.peers[offer.restartOf]];
            && offer.digest == Some(peer.digest) && offer.service == peer.service && offer.temporary == peer.temporary
            && peer.restartCount < 2)
  {
  }

  /** A new offer that the policy admits gets a peer of its own. */
  lemma NewPeerExactly(policy: Policy, s: Agent, offer: Offer, setUp: bool)
    requires s.busy.Idle? && offer.restartOf == ""
    ensures var t := Apply(policy, s, Begin(offer, setUp));
      if Admits(policy, offer) && setUp then
        && t.busy == Applying(|s.all|, offer) && |t.all| == |s.all| + 1 && t.all[..|s.all|] == s.all && t.peers == s.peers
        && t.all[|s.all|].service == offer.service && offer.digest == Some(t.all[|s.all|].digest)
        && t.all[|s.all|].temporary == offer.temporary && t.all[|s.all|].restartCount == 0
      else t == s
  {
  }

  /** An offer that is answered is registered with the peer that answered it. */
  lemma AnsweredIsRegistered(policy: Policy, s: Agent)
    requires s.busy.Applying? && s.busy.peer < |s.all|
    ensures var t := Apply(policy, Apply(policy, s, Applied(true)), Register); var p := s.busy.peer;
      && t.busy == Idle && |t.all| == |s.all| && s.busy.offer.id in t.peers && t.peers[s.busy.offer.id] == p
      && t.all[p] == s.all[p].(aliases := s.all[p].aliases + {s.busy.offer.id}, taken := s.all[p].taken + [s.busy.offer])
  {
  }

  /** Closing a peer removes only its own entries, and all it had when the close began. */
  lemma CloseRemovesOwn(policy: Policy, steps: seq<Step>, p: nat)
    requires p < |Run(policy, steps).all| && Run(policy, steps).all[p].closing.Closing?
    ensures var s := Run(policy, steps); var t := Apply(policy, s, CloseEnd(p));
      && (forall id :: id in s.peers && s.peers[id] != p ==> id in t.peers && t.peers[id] == s.peers[id])
      && (forall id :: id in t.peers && t.peers[id] == p ==> id in s.all[p].aliases - s.all[p].closing.ids)
  {
    RunFromInv(policy, START, steps);
    var s := Run(policy, steps);
    CloseEndShape(policy, s, p);
    DropsOwn(s.peers, p, s.all[p].closing.ids);
    EntriesAreAliases(policy, s, p);
  }

  /** A peer that is closed without interruption is closed for good and gone from the table; closing it again
      changes nothing. */
  lemma ClosedIsGone(policy: Policy, steps: seq<Step>, p: nat)
    requires p < |Run(policy, steps).all| && Run(policy, steps).all[p].closing.NotClosing?
    ensures var t := Apply(policy, Apply(policy, Run(policy, steps), CloseStart(p)), CloseEnd(p));
      && |t.all| == |Run(policy, steps).all| && t.all[p] == Run(policy, steps).all[p].(closing := Closed)
      && (forall id :: id in t.peers ==> t.peers[id] != p)
      && Apply(policy, t, CloseStart(p)) == t && Apply(policy, t, CloseEnd(p)) == t
  {
    var s := Run(policy, steps);
    RunFromInv(policy, START, steps);
    EntriesAreAliases(policy, s, p);
    var t := Apply(policy, Apply(policy, s, CloseStart(p)), CloseEnd(p));
    DropsOwn(s.peers, p, s.all[p].aliases);
    assert t.all[p := t.all[p]] == t.all;
  }

  lemma CloseEndShape(policy: Policy, s: Agent, p: nat)
    requires p < |s.all| && s.all[p].closing.Closing?
    ensures Apply(policy, s, CloseEnd(p)).peers == Drop(s.peers, p, s.all[p].closing.ids)
  {
  }

  lemma DropsOwn(peers: map<string, nat>, p: nat, ids: set<string>)
    ensures forall id :: id in peers && peers[id] != p ==> id in Drop(peers, p, ids) && Drop(peers, p, ids)[id] == peers[id]
    ensures forall id :: id in Drop(peers, p, ids) && Drop(peers, p, ids)[id] == p ==> id in peers && peers[id] == p && id !in ids
  {
  }

  lemma EntriesAreAliases(policy: Policy, s: Agent, p: nat)
    requires Inv(policy, s) && p < |s.all|
    ensures forall id :: id in s.peers && s.peers[id] == p ==> id in s.all[p].aliases
  {
  }

  // ----- the runtime object -----

  /** Whether an offer is answered when nothing else happens meanwhile. */
  predicate Answers(policy: Policy, s: Agent, offer: Offer, setUp: bool, applied: bool) {
    Admits(policy, offer) && (if offer.restartOf == "" then setUp else Restarts(s, offer)) && applied
  }

  /** The steps of one call of `acceptOffer`; the last one is the close of a new peer that failed. */
  function AcceptSteps(offer: Offer, setUp: bool, applied: bool, newest: nat): seq<Step> {
    [Begin(offer, setUp), Applied(applied), Register, CloseEnd(newest)]
  }

  lemma AcceptUnfold(policy: Policy, s: Agent, offer: Offer, setUp: bool, applied: bool, n: nat)
    ensures RunFrom(policy, s, AcceptSteps(offer, setUp, applied, n))
         == Apply(policy, Apply(policy, Apply(policy, Apply(policy, s, Begin(offer, setUp)), Applied(applied)), Register), CloseEnd(n))
  {
    var steps := AcceptSteps(offer, setUp, applied, n);
    assert steps[1..] == [Applied(applied), Register, CloseEnd(n)];
    assert steps[2..] == [Register, CloseEnd(n)] && steps[1..][1..] == steps[2..];
    assert steps[3..] == [CloseEnd(n)] && steps[2..][1..] == steps[3..];
    var s1 := Apply(policy, s, Begin(offer, setUp));
    var s2 := Apply(policy, s1, Applied(applied));
    var s3 := Apply(policy, s2, Register);
    assert RunFrom(policy, s3, steps[3..]) == Apply(policy, s3, CloseEnd(n));
    assert RunFrom(policy, s2, steps[2..]) == RunFrom(policy, s3, steps[3..]);
    assert RunFrom(policy, s1, steps[1..]) == RunFrom(policy, s2, steps[2..]);
  }

  /** What `acceptOffer` leaves behind, by where it ends. */
  lemma AcceptOutcome(policy: Policy, s: Agent, offer: Offer, setUp: bool, applied: bool)
    requires s.busy.Idle?
    ensures var s1 := Apply(policy, s, Begin(offer, setUp));
      var t := RunFrom(policy, s, AcceptSteps(offer, setUp, applied, |s.all|));
      && (s1.busy.Idle? ==> t == s1)
      && (s1.busy.Applying? ==>
            && s1.busy.offer == offer && s1.busy.peer < |s1.all|
            && var p := s1.busy.peer; var quiet := s1.(busy := Idle);
               && (applied ==> t == Agent(s1.peers[offer.id := p], s1.all[p := Take(s1.all[p], offer)], Idle))
               && (!applied && offer.restartOf != "" ==> t == quiet)
               && (!applied && offer.restartOf == "" ==>
                     s1.all[p].closing.NotClosing? && t == Apply(policy, Apply(policy, quiet, CloseStart(p)), CloseEnd(p))))
  {
    AcceptUnfold(policy, s, offer, setUp, applied, |s.all|);
  }

  class Runtime {
    const policy: Policy
    var peers: map<string, nat>
    var all: seq<Peer>

    ghost function Snapshot(): Agent
      reads this
    {
      Agent(peers, all, Idle)
    }

    ghost predicate Valid()
      reads this
    {
      Inv(policy, Snapshot())
    }

    constructor (policy: Policy)
      ensures this.policy == policy && Valid() && Snapshot() == START
    {
      this.policy := policy;
      peers, all := map[], [];
    }

    method BeginRestart(p: nat) returns (ok: bool)
      requires p < |all|
      modifies this
      ensures peers == old(peers) && ok == (old(all[p]).restartCount < MAX_RESTARTS)
      ensures all == if ok then old(all)[p := CountRestart(old(all[p]))] else old(all)
    {
      if all[p].restartCount >= MAX_RESTARTS {
        return false;
      }
      all := all[p := all[p].(restartCount := all[p].restartCount + 1)];
      return true;
    }

    method AddAlias(p: nat, offer: Offer)
      requires p < |all|
      modifies this
      ensures peers == old(peers)[offer.id := p] && all == old(all)[p := Take(old(all[p]), offer)]
    {
      all := all[p := Take(all[p], offer)];
      peers := peers[offer.id := p];
    }

    /** `peer.close`: at most once, entry by entry. */
    method ClosePeer(p: nat)
      requires p < |all|
      modifies this
      ensures Snapshot() == if old(all[p]).closing.NotClosing? then Apply(policy, Apply(policy, old(Snapshot()), CloseStart(p)), CloseEnd(p))
                            else old(Snapshot())
    {
      if !all[p].closing.NotClosing? {
        return;
      }
      var aliases := all[p].aliases;
      var left := aliases;
      while left != {}
        invariant left <= aliases && all == old(all)
        invariant peers == Drop(old(peers), p, aliases - left)
        decreases left
      {
        var id :| id in left;
        if id in peers && peers[id] == p {
          peers := peers - {id};
        }
        left := left - {id};
      }
      all := all[p := all[p].(closing := Closed)];
      assert aliases - left == aliases;
      assert all == old(all)[p := StartClosing(old(all[p]))][p := old(all[p]).(closing := Closed)];
    }

    /** `acceptOffer` up to the negotiation. */
    method Obtain(offer: Offer, setUp: bool) returns (code: string, current: nat)
      requires Valid()
      modifies this
      ensures code == "" ==> Agent(peers, all, Applying(current, offer)) == Apply(policy, old(Snapshot()), Begin(offer, setUp))
      ensures code != "" ==> Snapshot() == old(Snapshot()) == Apply(policy, old(Snapshot()), Begin(offer, setUp))
      ensures code == "" <==> Answers(policy, old(Snapshot()), offer, setUp, true)
    {
      code, current := "", 0;
      if !offer.sound {
        return "invalid_offer", 0;
      }
      if offer.digest.None? {
        return "invalid_capability", 0;
      }
      if offer.temporary {
        if policy.temporary.None? || !ValidOpaqueId(offer.service) {
          return "service_blocked", 0;
        }
      } else if offer.service !in policy.byId {
        return "service_blocked", 0;
      }
      if offer.restartOf == "" {
        if !setUp {
          return "peer_setup_failed", 0;
        }
        current := |all|;
        all := all + [NewPeer(offer)];
      } else {
        if offer.restartOf !in peers {
          return "restart_rejected", 0;
        }
        current := peers[offer.restartOf];
        if !SameAuthority(all[current], offer) {
          return "restart_rejected", 0;
        }
        var granted := BeginRestart(current);
        if !granted {
          return "restart_rejected", 0;
        }
      }
    }

    /** `acceptOffer` is the machine's steps in a row; the empty code is success. */
    method AcceptOffer(offer: Offer, setUp: bool, applied: bool) returns (code: string)
      requires Valid()
      modifies this
      ensures Valid()
      ensures Snapshot() == RunFrom(policy, old(Snapshot()), AcceptSteps(offer, setUp, applied, old(|all|)))
      ensures code == "" <==> Answers(policy, old(Snapshot()), offer, setUp, applied)
      ensures code == "" ==> offer.id in peers && peers[offer.id] < |all| && offer in all[peers[offer.id]].taken
    {
      RunFromInv(policy, Snapshot(), AcceptSteps(offer, setUp, applied, |all|));
      AcceptOutcome(policy, Snapshot(), offer, setUp, applied);
      var current;
      code, current := Obtain(offer, setUp);
      if code != "" {
        return;
      }
      if !applied {
        if offer.restartOf == "" {
          ClosePeer(current);
        }
        return "negotiation_failed";
      }
      AddAlias(current, offer);
    }
  }
}
