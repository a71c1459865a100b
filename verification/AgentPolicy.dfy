/** The Agent's local policy: configuration checks, compilation, name resolution against an adversarial
    resolver, and the address and port that a dial finally goes to. */
module AgentPolicy {
  import opened OpaqueId
  import opened Options
  import opened VirtualHost
  import opened Cidr
  import opened Lookup

  /** Library code the policy calls: text parsers, host name rules, case folding and TLS setup. */
  datatype Env = Env(
    parsePrefix: string -> Option<Prefix>,
    parseAddr: string -> Option<Addr>,
    validHostname: string -> bool,
    equalFold: (string, string) -> bool,
    toLower: string -> string,
    tlsBuilds: string -> bool
  )

  /** `netip.ParsePrefix` only returns well-formed prefixes without zones. */
  ghost predicate Sound(env: Env) {
    forall text :: env.parsePrefix(text).Some? ==> Cidr.Valid(env.parsePrefix(text).value)
  }

  /** `ServiceConfig`; `extrasOk` is the verdict on the policy reference's characters and the TLS section. */
  datatype ServiceConfig = ServiceConfig(
    id: string,
    policyRef: string,
    kind: string,
    host: string,
    port: nat,
    cidrs: seq<string>,
    tls: bool,
    extrasOk: bool
  )

  datatype TemporaryConfig = TemporaryConfig(cidrs: seq<string>, ports: seq<nat>, filesOk: bool)

  /** `headerOk` is the verdict on the controller URL, agent ID, key file and STUN URLs. */
  datatype Config = Config(headerOk: bool, services: seq<ServiceConfig>, temporary: Option<TemporaryConfig>)

  // ----- validation -----

  ghost predicate GoodCidr(env: Env, text: string) {
    && env.parsePrefix(text).Some?
    && var p := env.parsePrefix(text).value;
       Cidr.Valid(p) && !Is4In6(p.addr) && PermittedPrefix(Masked(p))
  }

  ghost predicate GoodCidrs(env: Env, cidrs: seq<string>) {
    cidrs != [] && forall i :: 0 <= i < |cidrs| ==> GoodCidr(env, cidrs[i])
  }

  ghost predicate GoodService(env: Env, s: ServiceConfig) {
    && ValidOpaqueId(s.id) && s.extrasOk
    && (s.kind == "http" || s.kind == "https" || s.kind == "guacamole")
    && env.validHostname(s.host) && s.port != 0
    && GoodCidrs(env, s.cidrs)
    && (s.kind == "https" ==> s.tls) && (s.kind == "http" ==> !s.tls)
  }

  ghost predicate GoodTemporary(env: Env, t: TemporaryConfig) {
    && GoodCidrs(env, t.cidrs) && 1 <= |t.ports| <= 32 && t.filesOk
    && (forall i :: 0 <= i < |t.ports| ==> t.ports[i] != 0)
    && (forall i, j :: 0 <= i < j < |t.ports| ==> t.ports[i] != t.ports[j])
  }

  ghost predicate GoodServices(env: Env, services: seq<ServiceConfig>) {
    && services != []
    && (forall i :: 0 <= i < |services| ==> GoodService(env, services[i]))
    && Unrepeated(services)
  }

  ghost predicate GoodConfig(env: Env, c: Config) {
    c.headerOk && GoodServices(env, c.services) && (c.temporary.Some? ==> GoodTemporary(env, c.temporary.value))
  }

  /** A CIDR is good exactly if it parses and holds nothing but private addresses. */
  lemma GoodCidrExactly(env: Env, text: string)
    requires Sound(env)
    ensures GoodCidr(env, text) <==>
      env.parsePrefix(text).Some? && forall a :: Contains(env.parsePrefix(text).value, a) ==> PrivateRange(a)
  {
    if env.parsePrefix(text).Some? {
      var p := env.parsePrefix(text).value;
      PermittedPrefixExactly(Masked(p));
      forall a
        ensures Contains(Masked(p), a) <==> Contains(p, a)
      {
        MaskedContains(p, a);
      }
      if Is4In6(p.addr) {
        assert Contains(p, p.addr);
        MappedIsNotPrivate(p.addr);
      }
    }
  }

  method CheckCidrs(env: Env, cidrs: seq<string>) returns (ok: bool)
    requires Sound(env)
    ensures ok <==> GoodCidrs(env, cidrs)
  {
    if |cidrs| == 0 {
      return false;
    }
    for i := 0 to |cidrs|
      invariant forall j :: 0 <= j < i ==> GoodCidr(env, cidrs[j])
    {
      var parsed := env.parsePrefix(cidrs[i]);
      if parsed.None? {
        assert !GoodCidr(env, cidrs[i]);
        return false;
      }
      var permitted := CheckPermitted(Masked(parsed.value));
      if Is4In6(parsed.value.addr) || !permitted {
        assert !GoodCidr(env, cidrs[i]);
        return false;
      }
    }
    return true;
  }

  /** `ServiceConfig.Validate`. */
  method ValidateService(env: Env, s: ServiceConfig) returns (ok: bool)
    requires Sound(env)
    ensures ok <==> GoodService(env, s)
    ensures ok <==> && ValidOpaqueId(s.id) && s.extrasOk && env.validHostname(s.host) && s.port > 0 && GoodCidrs(env, s.cidrs)
                    && (s.kind, s.tls) in {("http", false), ("https", true), ("guacamole", false), ("guacamole", true)}
  {
    if !ValidOpaqueId(s.id) || !s.extrasOk {
      return false;
    }
    if s.kind != "http" && s.kind != "https" && s.kind != "guacamole" {
      return false;
    }
    if !env.validHostname(s.host) || s.port == 0 {
      return false;
    }
    ok := CheckCidrs(env, s.cidrs);
    if !ok || (s.kind == "https" && !s.tls) || (s.kind == "http" && s.tls) {
      return false;
    }
  }

  /** `TemporaryPolicyConfig.Validate`. */
  method ValidateTemporary(env: Env, t: TemporaryConfig) returns (ok: bool)
    requires Sound(env)
    ensures ok <==> GoodTemporary(env, t)
    ensures ok <==> GoodCidrs(env, t.cidrs) && t.filesOk && 0 !in t.ports && 1 <= |t.ports| == |Elements(t.ports)| <= 32
  {
    DistinctExactly(t.ports);
    ok := CheckCidrs(env, t.cidrs);
    if !ok || |t.ports| == 0 || |t.ports| > 32 {
      return false;
    }
    var seen: set<nat> := {};
    for i := 0 to |t.ports|
      invariant seen == set j | 0 <= j < i :: t.ports[j]
      invariant forall j :: 0 <= j < i ==> t.ports[j] != 0
      invariant forall j, k :: 0 <= j < k < i ==> t.ports[j] != t.ports[k]
    {
      if t.ports[i] == 0 || t.ports[i] in seen {
        return false;
      }
      seen := seen + {t.ports[i]};
    }
    return t.filesOk;
  }

  function IdsOf(services: seq<ServiceConfig>): set<string> {
    set i | 0 <= i < |services| :: services[i].id
  }

  function RefsOf(services: seq<ServiceConfig>): set<string> {
    set i | 0 <= i < |services| :: services[i].policyRef
  }

  /** The seen-set test finds exactly the repetitions. */
  ghost predicate Unrepeated(services: seq<ServiceConfig>) {
    forall i, j :: 0 <= i < j < |services| ==> services[i].id != services[j].id && services[i].policyRef != services[j].policyRef
  }

  lemma UnrepeatedGrows(services: seq<ServiceConfig>, n: nat)
    requires n < |services| && Unrepeated(services[..n])
    ensures Unrepeated(services[..n + 1]) <==> services[n].id !in IdsOf(services[..n]) && services[n].policyRef !in RefsOf(services[..n])
    ensures IdsOf(services[..n + 1]) == IdsOf(services[..n]) + {services[n].id}
    ensures RefsOf(services[..n + 1]) == RefsOf(services[..n]) + {services[n].policyRef}
  {
    var front, all := services[..n], services[..n + 1];
    assert all == front + [services[n]];
    assert forall i :: 0 <= i < n ==> all[i] == front[i];
    assert all[n] == services[n];
  }

  /** No identifier and no reference is repeated exactly if there are as many of each as services. */
  lemma UnrepeatedExactly(services: seq<ServiceConfig>)
    ensures Unrepeated(services) <==> |IdsOf(services)| == |services| == |RefsOf(services)|
  {
    var ids := seq(|services|, i requires 0 <= i < |services| => services[i].id);
    var refs := seq(|services|, i requires 0 <= i < |services| => services[i].policyRef);
    DistinctExactly(ids);
    DistinctExactly(refs);
    assert forall i :: 0 <= i < |services| ==> ids[i] == services[i].id && refs[i] == services[i].policyRef;
    assert Elements(ids) == IdsOf(services) && Elements(refs) == RefsOf(services);
    if Unrepeated(services) {
      assert forall i, j :: 0 <= i < j < |ids| ==> ids[i] != ids[j] && refs[i] != refs[j];
    } else {
      var i, j :| 0 <= i < j < |services| && (services[i].id == services[j].id || services[i].policyRef == services[j].policyRef);
      assert ids[i] == ids[j] || refs[i] == refs[j];
    }
  }

  /** The first n services passed. */
  ghost predicate GoodSoFar(env: Env, services: seq<ServiceConfig>, n: nat)
    requires n <= |services|
  {
    (forall i :: 0 <= i < n ==> GoodService(env, services[i])) && Unrepeated(services[..n])
  }

  lemma GoodSoFarIsNeeded(env: Env, services: seq<ServiceConfig>, n: nat)
    requires n <= |services| && GoodServices(env, services)
    ensures GoodSoFar(env, services, n)
  {
  }

  lemma GoodSoFarSuffices(env: Env, services: seq<ServiceConfig>)
    requires services != [] && GoodSoFar(env, services, |services|)
    ensures GoodServices(env, services)
  {
    assert services[..|services|] == services;
  }

  /** One round of the service loop, with the sets of identifiers and references seen before. */
  method CheckNext(env: Env, services: seq<ServiceConfig>, n: nat, ids: set<string>, refs: set<string>) returns (ok: bool)
    requires Sound(env) && n < |services| && GoodSoFar(env, services, n)
    requires ids == IdsOf(services[..n]) && refs == RefsOf(services[..n])
    ensures ok <==> GoodSoFar(env, services, n + 1)
    ensures ids + {services[n].id} == IdsOf(services[..n + 1]) && refs + {services[n].policyRef} == RefsOf(services[..n + 1])
  {
    UnrepeatedGrows(services, n);
    ok := ValidateService(env, services[n]);
    if ok && (services[n].id in ids || services[n].policyRef in refs) {
      ok := false;
    }
  }

  /** The service loop of `Config.Validate`. */
  method ValidateServices(env: Env, services: seq<ServiceConfig>) returns (ok: bool)
    requires Sound(env)
    ensures ok <==> GoodServices(env, services)
  {
    if |services| == 0 {
      return false;
    }
    var ids: set<string>, refs: set<string> := {}, {};
    var n := 0;
    while n < |services|
      invariant n <= |services| && GoodSoFar(env, services, n) && ids == IdsOf(services[..n]) && refs == RefsOf(services[..n])
    {
      ok := CheckNext(env, services, n, ids, refs);
      if !ok {
        if GoodServices(env, services) { GoodSoFarIsNeeded(env, services, n + 1); }
        return;
      }
      ids := ids + {services[n].id};
      refs := refs + {services[n].policyRef};
      n := n + 1;
    }
    GoodSoFarSuffices(env, services);
    return true;
  }

  /** `Config.Validate`. */
  method Validate(env: Env, c: Config) returns (ok: bool)
    requires Sound(env)
    ensures ok <==> GoodConfig(env, c)
    ensures ok <==>
      && c.headerOk && c.services != [] && (forall i :: 0 <= i < |c.services| ==> GoodService(env, c.services[i]))
      && |IdsOf(c.services)| == |c.services| == |RefsOf(c.services)|
      && (c.temporary.Some? ==> GoodTemporary(env, c.temporary.value))
  {
    UnrepeatedExactly(c.services);
    if !c.headerOk {
      return false;
    }
    ok := ValidateServices(env, c.services);
    if ok && c.temporary.Some? {
      ok := ValidateTemporary(env, c.temporary.value);
    }
  }

  // ----- compilation -----

  datatype Compiled = Compiled(config: ServiceConfig, prefixes: seq<Prefix>, virtual: string)

  datatype CompiledTemporary = CompiledTemporary(prefixes: seq<Prefix>, ports: set<nat>)

  datatype Policy = Policy(byId: map<string, Compiled>, byVirtual: map<string, Compiled>, temporary: Option<CompiledTemporary>)

  function ParsedMask(env: Env, text: string): Prefix {
    match env.parsePrefix(text)
    case Some(p) => if Cidr.Valid(p) then Masked(p) else p
    case None => Prefix(V4(0), 32)
  }

  function CompiledPrefixes(env: Env, cidrs: seq<string>): (r: seq<Prefix>)
    ensures |r| == |cidrs| && forall i :: 0 <= i < |r| ==> r[i] == ParsedMask(env, cidrs[i])
  {
    seq(|cidrs|, i requires 0 <= i < |cidrs| => ParsedMask(env, cidrs[i]))
  }

  function HostOf(id: string): string {
    if ValidOpaqueId(id) then AgentHostname(id) else ""
  }

  function CompileOne(env: Env, s: ServiceConfig): Compiled {
    Compiled(s, CompiledPrefixes(env, s.cidrs), HostOf(s.id))
  }

  function Ids(services: seq<ServiceConfig>): (r: seq<string>)
    ensures |r| == |services| && forall i :: 0 <= i < |r| ==> r[i] == services[i].id
  {
    seq(|services|, i requires 0 <= i < |services| => services[i].id)
  }

  function Hosts(services: seq<ServiceConfig>): (r: seq<string>)
    ensures |r| == |services| && forall i :: 0 <= i < |r| ==> r[i] == HostOf(services[i].id)
  {
    seq(|services|, i requires 0 <= i < |services| => HostOf(services[i].id))
  }

  function CompileAll(env: Env, services: seq<ServiceConfig>): (r: seq<Compiled>)
    ensures |r| == |services| && forall i :: 0 <= i < |r| ==> r[i] == CompileOne(env, services[i])
  {
    seq(|services|, i requires 0 <= i < |services| => CompileOne(env, services[i]))
  }

  /** The map by virtual host name after the first n services: later services overwrite earlier ones. */
  function ByVirtual(env: Env, services: seq<ServiceConfig>, n: nat): map<string, Compiled>
    requires n <= |services|
  {
    Filled(Hosts(services), CompileAll(env, services), n)
  }

  function ById(env: Env, services: seq<ServiceConfig>, n: nat): map<string, Compiled>
    requires n <= |services|
  {
    Filled(Ids(services), CompileAll(env, services), n)
  }

  function PolicyOf(env: Env, c: Config): Policy {
    Policy(ById(env, c.services, |c.services|), ByVirtual(env, c.services, |c.services|),
           if c.temporary.None? then None
           else Some(CompiledTemporary(CompiledPrefixes(env, c.temporary.value.cidrs), Elements(c.temporary.value.ports))))
  }

  predicate TlsBuilds(env: Env, services: seq<ServiceConfig>) {
    forall i :: 0 <= i < |services| && services[i].tls ==> env.tlsBuilds(services[i].id)
  }

  method CompilePrefixes(env: Env, cidrs: seq<string>) returns (prefixes: seq<Prefix>)
    requires Sound(env)
    ensures prefixes == CompiledPrefixes(env, cidrs)
  {
    prefixes := [];
    for i := 0 to |cidrs|
      invariant |prefixes| == i && forall j :: 0 <= j < i ==> prefixes[j] == ParsedMask(env, cidrs[j])
    {
      var parsed := env.parsePrefix(cidrs[i]);
      prefixes := prefixes + [if parsed.Some? then Masked(parsed.value) else Prefix(V4(0), 32)];
    }
  }

  method CompileService(env: Env, service: ServiceConfig) returns (compiled: Compiled)
    requires Sound(env)
    ensures compiled == CompileOne(env, service) && compiled.virtual == HostOf(service.id)
  {
    var prefixes := CompilePrefixes(env, service.cidrs);
    compiled := Compiled(service, prefixes, HostOf(service.id));
  }

  /** What the service loop of `CompilePolicy` has built from the first n services. */
  ghost predicate BuiltSoFar(env: Env, services: seq<ServiceConfig>, n: nat, byId: map<string, Compiled>, byVirtual: map<string, Compiled>)
    requires n <= |services|
  {
    && byId == ById(env, services, n) && byVirtual == ByVirtual(env, services, n)
    && (forall i :: 0 <= i < n && services[i].tls ==> env.tlsBuilds(services[i].id))
  }

  lemma NothingBuilt(env: Env, services: seq<ServiceConfig>)
    ensures BuiltSoFar(env, services, 0, map[], map[])
  {
  }

  lemma OneMoreBuilt(env: Env, services: seq<ServiceConfig>, n: nat, byId: map<string, Compiled>, byVirtual: map<string, Compiled>)
    requires n < |services| && BuiltSoFar(env, services, n, byId, byVirtual)
    requires services[n].tls ==> env.tlsBuilds(services[n].id)
    ensures var one := CompileOne(env, services[n]);
      BuiltSoFar(env, services, n + 1, byId[services[n].id := one], byVirtual[one.virtual := one])
  {
  }

  /** One round of the loop. */
  method AddService(env: Env, services: seq<ServiceConfig>, n: nat, byId: map<string, Compiled>, byVirtual: map<string, Compiled>)
    returns (built: bool, byId': map<string, Compiled>, byVirtual': map<string, Compiled>)
    requires Sound(env) && n < |services| && BuiltSoFar(env, services, n, byId, byVirtual)
    ensures built ==> BuiltSoFar(env, services, n + 1, byId', byVirtual')
    ensures !built ==> !TlsBuilds(env, services)
  {
    byId', byVirtual' := byId, byVirtual;
    if services[n].tls && !env.tlsBuilds(services[n].id) {
      return false, byId', byVirtual';
    }
    var compiled := CompileService(env, services[n]);
    byId' := byId[services[n].id := compiled];
    byVirtual' := byVirtual[compiled.virtual := compiled];
    OneMoreBuilt(env, services, n, byId, byVirtual);
    built := true;
  }

  /** The service loop of `CompilePolicy`; `built` is false when a TLS policy could not be set up. */
  method CompileServices(env: Env, services: seq<ServiceConfig>)
    returns (built: bool, byId: map<string, Compiled>, byVirtual: map<string, Compiled>)
    requires Sound(env)
    ensures !built ==> !TlsBuilds(env, services)
    ensures built ==> BuiltSoFar(env, services, |services|, byId, byVirtual)
  {
    byId, byVirtual := map[], map[];
    NothingBuilt(env, services);
    for n := 0 to |services|
      invariant BuiltSoFar(env, services, n, byId, byVirtual)
    {
      built, byId, byVirtual := AddService(env, services, n, byId, byVirtual);
      if !built {
        return;
      }
    }
    built := true;
  }

  /** `CompilePolicy`: `None` stands for its errors. */
  method CompilePolicy(env: Env, c: Config) returns (policy: Option<Policy>)
    requires Sound(env)
    ensures policy.Some? <==> GoodConfig(env, c) && TlsBuilds(env, c.services)
    ensures policy.Some? ==> policy.value == PolicyOf(env, c)
  {
    var ok := Validate(env, c);
    if !ok {
      return None;
    }
    var built, byId, byVirtual := CompileServices(env, c.services);
    if !built {
      return None;
    }
    var temporary: Option<CompiledTemporary> := None;
    if c.temporary.Some? {
      var prefixes := CompilePrefixes(env, c.temporary.value.cidrs);
      temporary := Some(CompiledTemporary(prefixes, Elements(c.temporary.value.ports)));
    }
    return Some(Policy(byId, byVirtual, temporary));
  }

  // ----- resolution -----

  datatype Resolution = Resolved(addresses: seq<Addr>) | LookupFailed | NoAddresses | Blocked

  function UnmapAll(addresses: seq<Addr>): (r: seq<Addr>)
    ensures |r| == |addresses| && forall i :: 0 <= i < |r| ==> r[i] == Unmap(addresses[i])
  {
    seq(|addresses|, i requires 0 <= i < |addresses| => Unmap(addresses[i]))
  }

  predicate Allowed(prefixes: seq<Prefix>, a: Addr) {
    exists i :: 0 <= i < |prefixes| && Cidr.Valid(prefixes[i]) && Contains(prefixes[i], a)
  }

  /** What is checked: the literal address, or everything the resolver said. */
  function Candidates(env: Env, host: string, answer: Option<seq<Addr>>): Option<seq<Addr>> {
    match env.parseAddr(host)
    case Some(a) => Some([Unmap(a)])
    case None => if answer.None? then None else Some(UnmapAll(answer.value))
  }

  function Resolve(env: Env, host: string, prefixes: seq<Prefix>, answer: Option<seq<Addr>>): Resolution {
    match Candidates(env, host, answer)
    case None => LookupFailed
    case Some(addresses) =>
      if addresses == [] then NoAddresses
      else if forall i :: 0 <= i < |addresses| ==> Allowed(prefixes, addresses[i]) then Resolved(addresses)
      else Blocked
  }

  method InAllowlist(prefixes: seq<Prefix>, a: Addr) returns (allowed: bool)
    requires forall i :: 0 <= i < |prefixes| ==> Cidr.Valid(prefixes[i])
    ensures allowed <==> Allowed(prefixes, a)
  {
    allowed := false;
    for k := 0 to |prefixes|
      invariant !allowed && forall j :: 0 <= j < k ==> !Contains(prefixes[j], a)
    {
      if Contains(prefixes[k], a) {
        allowed := true;
        break;
      }
    }
  }

  /** `resolveHost`: every answer must be inside the allowlist, or none is used. */
  method ResolveHost(env: Env, host: string, prefixes: seq<Prefix>, answer: Option<seq<Addr>>) returns (r: Resolution)
    requires forall i :: 0 <= i < |prefixes| ==> Cidr.Valid(prefixes[i])
    ensures r == Resolve(env, host, prefixes, answer)
  {
    var addresses: seq<Addr> := [];
    var literal := env.parseAddr(host);
    if literal.Some? {
      addresses := [Unmap(literal.value)];
    } else {
      if answer.None? {
        return LookupFailed;
      }
      for i := 0 to |answer.value|
        invariant |addresses| == i && forall j :: 0 <= j < i ==> addresses[j] == Unmap(answer.value[j])
      {
        addresses := addresses + [Unmap(answer.value[i])];
      }
      assert addresses == UnmapAll(answer.value);
    }
    assert Candidates(env, host, answer) == Some(addresses);
    if |addresses| == 0 {
      return NoAddresses;
    }
    for i := 0 to |addresses|
      invariant forall j :: 0 <= j < i ==> Allowed(prefixes, addresses[j])
    {
      var allowed := InAllowlist(prefixes, addresses[i]);
      if !allowed {
        return Blocked;
      }
    }
    return Resolved(addresses);
  }
}
