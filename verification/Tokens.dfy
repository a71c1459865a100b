/** One-time tokens: binding codes that admit one agent each, and nonces that authenticate one signed
    request each.  Every SQL statement or transaction is a step, so verifications interleave. */
module Tokens {
  import opened Clock
  import opened Options

  const CODE_TTL: int := 10 * MINUTE
  const NONCE_TTL: int := 2 * MINUTE
  const SKEW: int := 90 * SECOND

  datatype CodeRow = CodeRow(expiresAt: int, consumedAt: Option<int>)

  datatype NonceRow = NonceRow(agent: string, expiresAt: int, consumedAt: Option<int>)

  /** Agents by identifier; the row is the Ed25519 public key. */
  type Agents = map<string, Digest>
  type Codes = map<Digest, CodeRow>
  type Nonces = map<Digest, NonceRow>

  // ----- statements -----

  predicate CodeUsable(row: CodeRow, now: int) {
    row.consumedAt.None? && row.expiresAt > Unix(now)
  }

  /** Primary key and UNIQUE(public_key). */
  predicate Insertable(agents: Agents, id: string, key: Digest) {
    id !in agents && forall other :: other in agents ==> agents[other] != key
  }

  datatype Bound = Bound(codes: Codes, agents: Agents, ok: bool)

  /** `ConsumeBindingCode`: the code is consumed and the agent inserted, or neither. */
  function Bind(codes: Codes, agents: Agents, code: Digest, id: string, key: Digest, now: int): Bound {
    if code !in codes || !CodeUsable(codes[code], now) || !Insertable(agents, id, key) then Bound(codes, agents, false)
    else Bound(codes[code := codes[code].(consumedAt := Some(Unix(now)))], agents[id := key], true)
  }

  predicate NonceUsable(nonces: Nonces, agent: string, digest: Digest, now: int) {
    digest in nonces && nonces[digest].agent == agent && nonces[digest].consumedAt.None? && nonces[digest].expiresAt > Unix(now)
  }

  function Consume(nonces: Nonces, digest: Digest, now: int): Nonces
    requires digest in nonces
  {
    nonces[digest := nonces[digest].(consumedAt := Some(Unix(now)))]
  }

  // ----- the machine -----

  /** A signed request: the nonce's digest, the time it claims, and the key that really signed it. */
  datatype Request = Request(agent: string, nonce: Digest, issuedAt: int, signer: Digest)

  /** `AgentAuthenticator.Verify`: the key is read, the signature checked, then the nonce consumed. */
  datatype Verification = Started(request: Request) | Checked(request: Request, at: int) | Accepted(request: Request) | Refused

  /** `at` is when the signature was checked, `now` when the nonce was consumed. */
  datatype Acceptance = Acceptance(request: Request, at: int, now: int)

  datatype Vault = Vault(
    codes: Codes,
    agents: Agents,
    nonces: Nonces,
    verifications: map<nat, Verification>,
    // history
    codeBorn: map<Digest, int>,
    nonceBorn: map<Digest, int>,
    log: seq<Acceptance>
  )

  const START := Vault(map[], map[], map[], map[], map[], map[], [])

  datatype Step =
    | IssueCode(code: Digest, now: int)
    | BindAgent(code: Digest, id: string, key: Digest, now: int)
    | IssueNonce(agent: string, nonce: Digest, now: int)
    | Submit(v: nat, request: Request)
    | CheckSignature(v: nat, now: int)
    | ConsumeNonce(v: nat, now: int)

  predicate SignatureOk(agents: Agents, r: Request, now: int) {
    r.agent in agents && agents[r.agent] == r.signer && -SKEW <= now - r.issuedAt <= SKEW
  }

  function Apply(s: Vault, step: Step): Vault {
    match step
    case IssueCode(code, now) =>
      if code in s.codes then s
      else s.(codes := s.codes[code := CodeRow(Unix(now + CODE_TTL), None)], codeBorn := s.codeBorn[code := now])
    case BindAgent(code, id, key, now) =>
      var b := Bind(s.codes, s.agents, code, id, key, now);
      s.(codes := b.codes, agents := b.agents)
    case IssueNonce(agent, nonce, now) =>
      if nonce in s.nonces || agent !in s.agents then s
      else s.(nonces := s.nonces[nonce := NonceRow(agent, Unix(now + NONCE_TTL), None)], nonceBorn := s.nonceBorn[nonce := now])
    case Submit(v, request) =>
      if v in s.verifications then s else s.(verifications := s.verifications[v := Started(request)])
    case CheckSignature(v, now) =>
      if v !in s.verifications || !s.verifications[v].Started? then s
      else
        var r := s.verifications[v].request;
        s.(verifications := s.verifications[v := if SignatureOk(s.agents, r, now) then Checked(r, now) else Refused])
    case ConsumeNonce(v, now) =>
      if v !in s.verifications || !s.verifications[v].Checked? then s
      else
        var r := s.verifications[v].request;
        if !NonceUsable(s.nonces, r.agent, r.nonce, now) then s.(verifications := s.verifications[v := Refused])
        else s.(nonces := Consume(s.nonces, r.nonce, now), verifications := s.verifications[v := Accepted(r)],
                log := s.log + [Acceptance(r, s.verifications[v].at, now)])
  }

  function RunFrom(s: Vault, steps: seq<Step>): Vault
    decreases |steps|
  {
    if steps == [] then s else RunFrom(Apply(s, steps[0]), steps[1..])
  }

  function Run(steps: seq<Step>): Vault {
    RunFrom(START, steps)
  }

  // ----- what every step keeps -----

  function Spent(codes: Codes): set<Digest> {
    set c | c in codes && codes[c].consumedAt.Some?
  }

  /** One agent per consumed code, and no two agents with one key. */
  ghost predicate Balanced(codes: Codes, agents: Agents) {
    && |agents| == |Spent(codes)|
    && forall a, b :: a in agents && b in agents && agents[a] == agents[b] ==> a == b
  }

  /** An acceptance is genuine: signed with the agent's key, less than 90 seconds off the time it claims when
      it was checked, and with a nonce issued to that agent less than two minutes before it was consumed. */
  predicate Genuine(s: Vault, a: Acceptance) {
    && a.request.agent in s.agents && s.agents[a.request.agent] == a.request.signer
    && a.request.nonce in s.nonces && s.nonces[a.request.nonce].agent == a.request.agent
    && s.nonces[a.request.nonce].consumedAt.Some?
    && a.request.nonce in s.nonceBorn && a.now < s.nonceBorn[a.request.nonce] + 2 * MINUTE
    && a.request.issuedAt - 90 * SECOND <= a.at <= a.request.issuedAt + 90 * SECOND
  }

  ghost predicate Logged(s: Vault) {
    && (forall i :: 0 <= i < |s.log| ==> Genuine(s, s.log[i]))
    && (forall i, j :: 0 <= i < j < |s.log| ==> s.log[i].request.nonce != s.log[j].request.nonce)
    && Sound(s)
  }

  lemma SpentGrows(codes: Codes, code: Digest, row: CodeRow)
    requires row.consumedAt.Some? && (code in codes ==> codes[code].consumedAt.None?)
    ensures |Spent(codes[code := row])| == |Spent(codes)| + 1
  {
    assert Spent(codes[code := row]) == Spent(codes) + {code};
  }

  lemma BalancedBind(codes: Codes, agents: Agents, code: Digest, id: string, key: Digest, now: int)
    requires Balanced(codes, agents)
    ensures var b := Bind(codes, agents, code, id, key, now); Balanced(b.codes, b.agents)
  {
    if Bind(codes, agents, code, id, key, now).ok {
      SpentGrows(codes, code, codes[code].(consumedAt := Some(Unix(now))));
    }
  }

  lemma BalancedIssue(codes: Codes, agents: Agents, code: Digest, row: CodeRow)
    requires Balanced(codes, agents) && code !in codes && row.consumedAt.None?
    ensures Balanced(codes[code := row], agents)
  {
    assert Spent(codes[code := row]) == Spent(codes);
  }

  lemma BalancedStep(s: Vault, step: Step)
    requires Balanced(s.codes, s.agents)
    ensures Balanced(Apply(s, step).codes, Apply(s, step).agents)
  {
    match step
    case IssueCode(code, now) =>
      if code !in s.codes { BalancedIssue(s.codes, s.agents, code, CodeRow(Unix(now + CODE_TTL), None)); }
    case BindAgent(code, id, key, now) => BalancedBind(s.codes, s.agents, code, id, key, now);
    case _ =>
  }

  /** Rows an acceptance relies on are never taken away. */
  lemma GenuineStays(s: Vault, step: Step, a: Acceptance)
    requires Genuine(s, a)
    ensures Genuine(Apply(s, step), a)
  {
  }

  /** A usable nonce is not in the log yet. */
  lemma UsableIsNew(s: Vault, agent: string, nonce: Digest, now: int)
    requires Logged(s) && NonceUsable(s.nonces, agent, nonce, now)
    ensures forall i :: 0 <= i < |s.log| ==> s.log[i].request.nonce != nonce
  {
    assert forall i :: 0 <= i < |s.log| ==> Genuine(s, s.log[i]);
  }

  /** Signed with the agent's key, at most 90 seconds off when it was checked. */
  predicate SignedInTime(agents: Agents, r: Request, at: int) {
    && r.agent in agents && agents[r.agent] == r.signer
    && r.issuedAt - 90 * SECOND <= at <= r.issuedAt + 90 * SECOND
  }

  /** What is left of the log's law when the log is taken apart. */
  ghost predicate Sound(s: Vault) {
    && (forall n :: n in s.nonces ==> n in s.nonceBorn && s.nonces[n].expiresAt == Unix(s.nonceBorn[n] + NONCE_TTL))
    && (forall v :: v in s.verifications && s.verifications[v].Checked? ==>
          SignedInTime(s.agents, s.verifications[v].request, s.verifications[v].at))
  }

  lemma SoundConsume(s: Vault, v: nat, now: int)
    requires Sound(s)
    ensures Sound(Apply(s, ConsumeNonce(v, now)))
  {
  }

  /** A consumption adds at most its own, genuine acceptance. */
  lemma ConsumeLogs(s: Vault, v: nat, now: int)
    requires Sound(s)
    ensures var t := Apply(s, ConsumeNonce(v, now));
      t.log == s.log || (v in s.verifications && s.verifications[v].Checked? &&
                         var r := s.verifications[v].request;
                         var a := Acceptance(r, s.verifications[v].at, now);
                         t.log == s.log + [a] && NonceUsable(s.nonces, r.agent, r.nonce, now) && Genuine(t, a))
  {
  }

  lemma LoggedConsume(s: Vault, v: nat, now: int)
    requires Logged(s)
    ensures Logged(Apply(s, ConsumeNonce(v, now)))
  {
    var t := Apply(s, ConsumeNonce(v, now));
    SoundConsume(s, v, now);
    ConsumeLogs(s, v, now);
    if t.log != s.log {
      UsableIsNew(s, s.verifications[v].request.agent, s.verifications[v].request.nonce, now);
    }
    forall i | 0 <= i < |t.log|
      ensures Genuine(t, t.log[i])
    {
      if i < |s.log| {
        GenuineStays(s, ConsumeNonce(v, now), s.log[i]);
      }
    }
  }

  lemma LoggedOther(s: Vault, step: Step)
    requires Logged(s) && !step.ConsumeNonce?
    ensures Logged(Apply(s, step))
  {
    var t := Apply(s, step);
    assert t.log == s.log;
    forall i | 0 <= i < |t.log|
      ensures Genuine(t, t.log[i])
    {
      GenuineStays(s, step, s.log[i]);
    }
  }

  lemma {:induction false} RunFromInv(s: Vault, steps: seq<Step>)
    requires Balanced(s.codes, s.agents) && Logged(s)
    ensures var t := RunFrom(s, steps); Balanced(t.codes, t.agents) && Logged(t)
    decreases |steps|
  {
    if steps != [] {
      BalancedStep(s, steps[0]);
      if steps[0].ConsumeNonce? {
        LoggedConsume(s, steps[0].v, steps[0].now);
      } else {
        LoggedOther(s, steps[0]);
      }
      RunFromInv(Apply(s, steps[0]), steps[1..]);
    }
  }

  // ----- the theorems -----

  /** From an empty store, in every reachable state there are exactly as many agents as consumed
      binding codes, and no two agents share a key. */
  lemma OneAgentPerCode(steps: seq<Step>)
    ensures var s := Run(steps); |s.agents| == |Spent(s.codes)|
    ensures var s := Run(steps); forall a, b :: a in s.agents && b in s.agents && s.agents[a] == s.agents[b] ==> a == b
  {
    RunFromInv(START, steps);
  }

  /** A failed insert gives the code back: binding changes the codes exactly if it adds the agent. */
  lemma BindAllOrNothing(codes: Codes, agents: Agents, code: Digest, id: string, key: Digest, now: int)
    ensures var b := Bind(codes, agents, code, id, key, now);
      && (b.ok <==> b.agents != agents) && (b.ok <==> b.codes != codes)
      && (b.ok ==> code in codes && code in b.codes && codes[code].consumedAt.None? && b.codes[code].consumedAt.Some? && b.agents == agents[id := key])
  {
    var b := Bind(codes, agents, code, id, key, now);
    if b.ok {
      assert b.codes[code] != codes[code];
      assert id in b.agents && id !in agents;
    }
  }

  /** Over all interleaved verifications, a nonce is accepted at most once, only for the agent it was
      issued to, only under that agent's key, at most 90 seconds off the time the request claims, and less
      than two minutes after the nonce was issued. */
  lemma NonceAcceptedOnce(steps: seq<Step>)
    ensures var s := Run(steps);
      && (forall i :: 0 <= i < |s.log| ==> Genuine(s, s.log[i]))
      && (forall i, j :: 0 <= i < j < |s.log| ==> s.log[i].request.nonce != s.log[j].request.nonce)
  {
    RunFromInv(START, steps);
  }

  /** An accepted request has used its nonce up. */
  predicate Took(nonces: Nonces, v: Verification) {
    v.Accepted? ==> v.request.nonce in nonces && nonces[v.request.nonce].consumedAt.Some?
  }

  predicate Share(v: Verification, w: Verification) {
    v.Accepted? && w.Accepted? && v.request.nonce == w.request.nonce
  }

  ghost predicate Apart(nonces: Nonces, vs: map<nat, Verification>) {
    && (forall v :: v in vs ==> Took(nonces, vs[v]))
    && (forall v, w :: v in vs && w in vs && Share(vs[v], vs[w]) ==> v == w)
  }

  /** Only a consumption accepts, and what is used up stays so. */
  lemma OtherAccepts(s: Vault, step: Step)
    requires !step.ConsumeNonce?
    ensures var t := Apply(s, step);
      && (forall v :: v in t.verifications && t.verifications[v].Accepted? ==> v in s.verifications && s.verifications[v] == t.verifications[v])
      && (forall n :: n in s.nonces ==> n in t.nonces && t.nonces[n] == s.nonces[n])
  {
  }

  lemma ApartConsume(s: Vault, v: nat, now: int)
    requires Apart(s.nonces, s.verifications)
    ensures var t := Apply(s, ConsumeNonce(v, now)); Apart(t.nonces, t.verifications)
  {
    var t := Apply(s, ConsumeNonce(v, now));
    forall w | w in t.verifications
      ensures Took(t.nonces, t.verifications[w])
    {
      assert Took(s.nonces, s.verifications[w]);
    }
  }

  lemma ApartKept(nonces: Nonces, vs: map<nat, Verification>, nonces': Nonces, vs': map<nat, Verification>)
    requires Apart(nonces, vs)
    requires forall v :: v in vs' && vs'[v].Accepted? ==> v in vs && vs[v] == vs'[v]
    requires forall n :: n in nonces ==> n in nonces' && nonces'[n] == nonces[n]
    ensures Apart(nonces', vs')
  {
    forall v | v in vs'
      ensures Took(nonces', vs'[v])
    {
      if vs'[v].Accepted? {
        assert Took(nonces, vs[v]);
      }
    }
  }

  lemma ApartStep(s: Vault, step: Step)
    requires Apart(s.nonces, s.verifications)
    ensures var t := Apply(s, step); Apart(t.nonces, t.verifications)
  {
    if step.ConsumeNonce? {
      ApartConsume(s, step.v, step.now);
    } else {
      OtherAccepts(s, step);
      ApartKept(s.nonces, s.verifications, Apply(s, step).nonces, Apply(s, step).verifications);
    }
  }

  lemma {:induction false} RunApart(s: Vault, steps: seq<Step>)
    requires Apart(s.nonces, s.verifications)
    ensures Apart(RunFrom(s, steps).nonces, RunFrom(s, steps).verifications)
    decreases |steps|
  {
    if steps != [] {
      ApartStep(s, steps[0]);
      RunApart(Apply(s, steps[0]), steps[1..]);
    }
  }

  /** However verifications interleave, no two of them are accepted on one nonce. */
  lemma OneAcceptancePerNonce(steps: seq<Step>, v: nat, w: nat)
    requires var s := Run(steps); v in s.verifications && w in s.verifications
    requires var s := Run(steps); s.verifications[v].Accepted? && s.verifications[w].Accepted?
    requires var s := Run(steps); s.verifications[v].request.nonce == s.verifications[w].request.nonce
    ensures v == w
  {
    RunApart(START, steps);
    assert Share(Run(steps).verifications[v], Run(steps).verifications[w]);
  }

  /** A code row expires ten minutes after it was issued, cut to the second. */
  ghost predicate CodesDated(codes: Codes, born: map<Digest, int>) {
    forall c :: c in codes ==> c in born && codes[c].expiresAt == Unix(born[c] + CODE_TTL)
  }

  lemma DatedStep(s: Vault, step: Step)
    requires CodesDated(s.codes, s.codeBorn)
    ensures CodesDated(Apply(s, step).codes, Apply(s, step).codeBorn)
  {
  }

  lemma {:induction false} RunDated(s: Vault, steps: seq<Step>)
    requires CodesDated(s.codes, s.codeBorn)
    ensures CodesDated(RunFrom(s, steps).codes, RunFrom(s, steps).codeBorn)
    decreases |steps|
  {
    if steps != [] {
      DatedStep(s, steps[0]);
      RunDated(Apply(s, steps[0]), steps[1..]);
    }
  }

  /** In every reachable state a code admits an agent only less than ten minutes after it was issued. */
  lemma CodeUsedInTime(steps: seq<Step>, code: Digest, id: string, key: Digest, now: int)
    requires var s := Run(steps); Bind(s.codes, s.agents, code, id, key, now).ok
    ensures var s := Run(steps); code in s.codeBorn && now < s.codeBorn[code] + CODE_TTL
  {
    RunDated(START, steps);
  }

  predicate Used(codes: Codes, code: Digest) {
    code in codes && codes[code].consumedAt.Some?
  }

  lemma UsedStep(s: Vault, step: Step, code: Digest)
    requires Used(s.codes, code)
    ensures Used(Apply(s, step).codes, code)
  {
  }

  lemma {:induction false} UsedRun(s: Vault, steps: seq<Step>, code: Digest)
    requires Used(s.codes, code)
    ensures Used(RunFrom(s, steps).codes, code)
    decreases |steps|
  {
    if steps != [] {
      UsedStep(s, steps[0], code);
      UsedRun(Apply(s, steps[0]), steps[1..], code);
    }
  }

  /** A code that has admitted an agent never admits another one, whatever happens after. */
  lemma CodeUsedOnce(before: seq<Step>, code: Digest, id: string, key: Digest, now: int, after: seq<Step>,
                     id': string, key': Digest, now': int)
    requires var s := Run(before); Bind(s.codes, s.agents, code, id, key, now).ok
    ensures var t := RunFrom(Apply(Run(before), BindAgent(code, id, key, now)), after);
      !Bind(t.codes, t.agents, code, id', key', now').ok
  {
    UsedRun(Apply(Run(before), BindAgent(code, id, key, now)), after, code);
  }

  /** The three steps of one verification that nobody interrupts. */
  function VerifySteps(v: nat, r: Request, now: int, later: int): seq<Step> {
    [Submit(v, r)] + ([CheckSignature(v, now)] + ([ConsumeNonce(v, later)] + []))
  }

  lemma RunCons(s: Vault, step: Step, rest: seq<Step>)
    ensures RunFrom(s, [step] + rest) == RunFrom(Apply(s, step), rest)
  {
    assert ([step] + rest)[1..] == rest;
  }

  lemma VerifyUnfold(s: Vault, v: nat, r: Request, now: int, later: int)
    ensures RunFrom(s, VerifySteps(v, r, now, later)) == Apply(Apply(Apply(s, Submit(v, r)), CheckSignature(v, now)), ConsumeNonce(v, later))
  {
    var s1 := Apply(s, Submit(v, r));
    RunCons(s, Submit(v, r), [CheckSignature(v, now)] + ([ConsumeNonce(v, later)] + []));
    RunCons(s1, CheckSignature(v, now), [ConsumeNonce(v, later)] + []);
    RunCons(Apply(s1, CheckSignature(v, now)), ConsumeNonce(v, later), []);
  }

  /** The request deserves to be accepted: signed with the agent's key, checked at most 90 seconds off, and with
      an unused nonce of the agent that is under two minutes old, cut to the second. */
  predicate Deserves(s: Vault, r: Request, now: int, later: int) {
    && r.agent in s.agents && s.agents[r.agent] == r.signer && r.issuedAt - 90 * SECOND <= now <= r.issuedAt + 90 * SECOND
    && r.nonce in s.nonces && s.nonces[r.nonce].agent == r.agent && s.nonces[r.nonce].consumedAt.None?
    && r.nonce in s.nonceBorn && Unix(later) < Unix(s.nonceBorn[r.nonce] + 2 * MINUTE)
  }

  /** In every reachable state, a verification that nobody interrupts is accepted if and only if it deserves it. */
  lemma AcceptedExactly(steps: seq<Step>, v: nat, r: Request, now: int, later: int)
    requires v !in Run(steps).verifications
    ensures var t := RunFrom(Run(steps), VerifySteps(v, r, now, later));
      && v in t.verifications && (t.verifications[v].Accepted? <==> Deserves(Run(steps), r, now, later))
      && (t.verifications[v].Accepted? || t.verifications[v].Refused?)
      && t.log == Run(steps).log + if t.verifications[v].Accepted? then [Acceptance(r, now, later)] else []
  {
    RunFromInv(START, steps);
    var s := Run(steps);
    VerifyUnfold(s, v, r, now, later);
    CheckDecides(s, v, r, now);
    ConsumeDecides(Apply(Apply(s, Submit(v, r)), CheckSignature(v, now)), v, later);
  }

  lemma CheckDecides(s: Vault, v: nat, r: Request, now: int)
    requires v !in s.verifications
    ensures var t := Apply(Apply(s, Submit(v, r)), CheckSignature(v, now));
      && t.nonces == s.nonces && t.nonceBorn == s.nonceBorn && t.log == s.log && v in t.verifications
      && t.verifications[v] == if SignedInTime(s.agents, r, now) then Checked(r, now) else Refused
  {
  }

  lemma ConsumeDecides(s: Vault, v: nat, now: int)
    requires v in s.verifications && (s.verifications[v].Checked? || s.verifications[v].Refused?)
    requires forall n :: n in s.nonces ==> n in s.nonceBorn && s.nonces[n].expiresAt == Unix(s.nonceBorn[n] + 2 * MINUTE)
    ensures var t := Apply(s, ConsumeNonce(v, now)); var before := s.verifications[v];
      && v in t.verifications && (t.verifications[v].Accepted? || t.verifications[v].Refused?)
      && (t.verifications[v].Accepted? <==>
            && before.Checked? && before.request.nonce in s.nonces && s.nonces[before.request.nonce].agent == before.request.agent
            && s.nonces[before.request.nonce].consumedAt.None? && Unix(now) < Unix(s.nonceBorn[before.request.nonce] + 2 * MINUTE))
      && t.log == s.log + if t.verifications[v].Accepted? then [Acceptance(before.request, before.at, now)] else []
  {
  }

  /** A nonce that was just issued to an agent is there for it. */
  lemma IssuedIsUsable(s: Vault, agent: string, nonce: Digest, now: int)
    requires agent in s.agents && nonce !in s.nonces
    ensures var t := Apply(s, IssueNonce(agent, nonce, now));
      && nonce in t.nonces && t.nonces[nonce].agent == agent && t.nonces[nonce].consumedAt.None?
      && t.nonces[nonce].expiresAt == Unix(now + 2 * MINUTE) && nonce in t.nonceBorn && t.nonceBorn[nonce] == now
  {
  }

  /** A code that was just issued admits the first agent whose identifier and key are free, in its ten minutes. */
  lemma IssuedCodeBinds(s: Vault, code: Digest, now: int, id: string, key: Digest, later: int)
    requires code !in s.codes && id !in s.agents && forall a :: a in s.agents ==> s.agents[a] != key
    requires Unix(later) < Unix(now + 10 * MINUTE)
    ensures var t := Apply(Apply(s, IssueCode(code, now)), BindAgent(code, id, key, later)); t.agents == s.agents[id := key]
  {
  }

  /** A code binds an agent if and only if it was issued, was not used, is under ten minutes old, cut to the
      second, and neither the identifier nor the key is taken. */
  lemma BoundExactly(steps: seq<Step>, code: Digest, id: string, key: Digest, now: int)
    ensures var s := Run(steps); Bind(s.codes, s.agents, code, id, key, now).ok <==>
      && code in s.codes && s.codes[code].consumedAt.None? && code in s.codeBorn && Unix(now) < Unix(s.codeBorn[code] + 10 * MINUTE)
      && id !in s.agents && (forall a :: a in s.agents ==> s.agents[a] != key)
  {
    RunDated(START, steps);
  }

  // ----- the imperative store -----

  datatype BindResult = Committed | InvalidCode | InsertFailed

  class Registry {
    var codes: Codes
    var agents: Agents
    var nonces: Nonces

    constructor ()
      ensures codes == map[] && agents == map[] && nonces == map[]
    {
      codes, agents, nonces := map[], map[], map[];
    }

    /** `ConsumeBindingCode`: update, insert, commit; anything else rolls back. */
    method ConsumeBindingCode(code: Digest, id: string, key: Digest, now: int) returns (result: BindResult)
      modifies this`codes, this`agents
      ensures Bound(codes, agents, result == Committed) == Bind(old(codes), old(agents), code, id, key, now)
      ensures result == InvalidCode <==> code !in old(codes) || !CodeUsable(old(codes)[code], now)
    {
      var begun := codes;
      var updated := 0;
      if code in codes && codes[code].consumedAt.None? && codes[code].expiresAt > Unix(now) {
        codes := codes[code := codes[code].(consumedAt := Some(Unix(now)))];
        updated := 1;
      }
      if updated != 1 {
        codes := begun;
        return InvalidCode;
      }
      if id in agents || (exists other :: other in agents && agents[other] == key) {
        codes := begun;
        return InsertFailed;
      }
      agents := agents[id := key];
      return Committed;
    }

    /** `AgentAuthenticator.Verify` run without interruption, with its two clock readings. */
    method Verify(request: Request, now: int, later: int) returns (ok: bool)
      modifies this`nonces
      ensures ok <==>
        // signed with the agent's own key
        && request.agent in agents && agents[request.agent] == request.signer
        // at most 90 seconds off, either way
        && request.issuedAt - 90 * SECOND <= now <= request.issuedAt + 90 * SECOND
        // with a nonce of that agent, unused and not expired
        && request.nonce in old(nonces) && old(nonces)[request.nonce].agent == request.agent
        && old(nonces)[request.nonce].consumedAt.None? && Unix(later) < old(nonces)[request.nonce].expiresAt
      ensures nonces == if ok then old(nonces)[request.nonce := old(nonces)[request.nonce].(consumedAt := Some(Unix(later)))] else old(nonces)
    {
      if request.agent !in agents {
        return false;
      }
      var delta := now - request.issuedAt;
      if delta < -SKEW || delta > SKEW || agents[request.agent] != request.signer {
        return false;
      }
      if request.nonce !in nonces || nonces[request.nonce].agent != request.agent
         || nonces[request.nonce].consumedAt.Some? || nonces[request.nonce].expiresAt <= Unix(later) {
        return false;
      }
      nonces := nonces[request.nonce := nonces[request.nonce].(consumedAt := Some(Unix(later)))];
      return true;
    }
  }
}
