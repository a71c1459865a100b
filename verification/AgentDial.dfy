/** Where a dial of the Agent goes: the virtual name of a configured service, or the pinned target of a
    temporary one.  The resolver's answers and the requested names are arbitrary. */
module AgentDial {
  import opened OpaqueId
  import opened Options
  import opened VirtualHost
  import opened Cidr
  import opened AgentPolicy
  import opened Lookup
  import Base32

  /** `secure` tells whether the connection is wrapped in the service's TLS configuration. */
  datatype Outcome = Dial(addr: Addr, port: nat, secure: bool) | Refused | Failed

  function VirtualPort(s: ServiceConfig): nat {
    if s.kind == "https" || (s.kind == "guacamole" && s.tls) then 443 else 80
  }

  function DialFirst(r: Resolution, port: nat, secure: bool): Outcome {
    match r
    case Resolved(addresses) => if addresses == [] then Failed else Dial(addresses[0], port, secure)
    case Blocked => Refused
    case _ => Failed
  }

  /** `Policy.DialVirtual`. */
  function DialVirtual(env: Env, policy: Policy, host: string, port: nat, answer: Option<seq<Addr>>): Outcome {
    var key := env.toLower(host);
    if key !in policy.byVirtual || port != VirtualPort(policy.byVirtual[key].config) then Refused
    else
      var s := policy.byVirtual[key];
      DialFirst(Resolve(env, s.config.host, s.prefixes, answer), s.config.port, s.config.tls)
  }

  /** `Policy.VirtualAuthority` with the zero values of its error case. */
  function VirtualAuthority(policy: Policy, id: string): (string, nat) {
    if id in policy.byId then (policy.byId[id].virtual, VirtualPort(policy.byId[id].config)) else ("", 0)
  }

  /** The dial function `serviceDial` gives to a configured service's Wisp servers. */
  function ServiceDial(env: Env, policy: Policy, id: string, host: string, port: nat, answer: Option<seq<Addr>>): Outcome {
    var expected := VirtualAuthority(policy, id);
    if !env.equalFold(host, expected.0) || port != expected.1 then Refused
    else DialVirtual(env, policy, host, port, answer)
  }

  // ----- case folding -----

  predicate LowerAscii(text: string) {
    forall i :: 0 <= i < |text| ==> ' ' <= text[i] <= '~' && !('A' <= text[i] <= 'Z')
  }

  /** `strings.EqualFold` and `strings.ToLower` agree where both end in lower-case ASCII, and both leave
      such text alone.  (They differ elsewhere: U+017F folds to 's' but is its own lower case.) */
  ghost predicate FoldLaw(env: Env) {
    && (forall a, b :: env.equalFold(a, b) && LowerAscii(env.toLower(a)) && LowerAscii(b) ==> env.toLower(a) == b)
    && (forall a :: LowerAscii(a) ==> env.toLower(a) == a && env.equalFold(a, a))
  }

  lemma LowerOfBase32(text: string)
    requires Base32.WellFormed(text)
    ensures LowerAscii(Lower(text))
  {
    forall i | 0 <= i < |text|
      ensures ' ' <= Lower(text)[i] <= '~' && !('A' <= Lower(text)[i] <= 'Z')
    {
      assert text[i] in text;
    }
  }

  lemma HostTextIsLower(text: string)
    requires LowerAscii(text)
    ensures LowerAscii("s-" + text + ".webvpn.invalid")
  {
    LowerConcat("s-", text);
    LowerConcat("s-" + text, ".webvpn.invalid");
  }

  lemma HostIsLower(id: string)
    requires ValidOpaqueId(id)
    ensures LowerAscii(HostOf(id))
  {
    var raw := GoDecode(id).value;
    Base32.RoundTrip(raw);
    LowerOfBase32(Base32.Encode(raw));
    HostTextIsLower(Lower(Base32.Encode(raw)));
  }

  lemma LowerConcat(a: string, b: string)
    requires LowerAscii(a) && LowerAscii(b)
    ensures LowerAscii(a + b)
  {
  }

  // ----- what compilation leaves in the maps -----

  lemma ByIdExact(env: Env, services: seq<ServiceConfig>, id: string)
    requires Unrepeated(services)
    ensures id in ById(env, services, |services|) <==> exists i :: 0 <= i < |services| && services[i].id == id
    ensures forall i :: 0 <= i < |services| && services[i].id == id ==> ById(env, services, |services|)[id] == CompileOne(env, services[i])
  {
    var ids, all, n := Ids(services), CompileAll(env, services), |services|;
    if id in ById(env, services, n) {
      OnlyKeys(ids, all, n, id);
    }
    forall i | 0 <= i < n && services[i].id == id
      ensures id in ById(env, services, n) && ById(env, services, n)[id] == CompileOne(env, services[i])
    {
      assert Last(ids, n, i, id);
      LastWins(ids, all, n, i, id);
    }
  }

  // ----- containment -----

  /** The address lies in one of the configured CIDRs, as written. */
  ghost predicate InCidrs(env: Env, cidrs: seq<string>, a: Addr) {
    exists k :: 0 <= k < |cidrs| && InCidr(env, cidrs[k], a)
  }

  ghost predicate InCidr(env: Env, text: string, a: Addr) {
    env.parsePrefix(text).Some? && Cidr.Valid(env.parsePrefix(text).value) && Contains(env.parsePrefix(text).value, a)
  }

  lemma AllowedMeans(env: Env, cidrs: seq<string>, a: Addr)
    requires GoodCidrs(env, cidrs)
    ensures Allowed(CompiledPrefixes(env, cidrs), a) <==> InCidrs(env, cidrs, a)
    ensures InCidrs(env, cidrs, a) ==> PrivateRange(a)
  {
    var prefixes := CompiledPrefixes(env, cidrs);
    forall k | 0 <= k < |cidrs|
      ensures Cidr.Valid(prefixes[k])
      ensures Contains(prefixes[k], a) <==> InCidr(env, cidrs[k], a)
      ensures Contains(prefixes[k], a) ==> PrivateRange(a)
    {
      PrefixMeans(env, cidrs[k], a);
    }
  }

  lemma PrefixMeans(env: Env, text: string, a: Addr)
    requires GoodCidr(env, text)
    ensures Cidr.Valid(ParsedMask(env, text))
    ensures Contains(ParsedMask(env, text), a) <==> InCidr(env, text, a)
    ensures InCidr(env, text, a) ==> PrivateRange(a)
  {
    var p := env.parsePrefix(text).value;
    MaskedContains(p, a);
    if Contains(p, a) {
      PermittedInside(Masked(p), a);
      PermittedExactly(a);
    }
  }

  /** Every candidate address lies in the CIDRs: one outside it spoils the whole answer. */
  ghost predicate AnswerInside(env: Env, host: string, cidrs: seq<string>, answer: Option<seq<Addr>>) {
    && Candidates(env, host, answer).Some?
    && var addresses := Candidates(env, host, answer).value;
       addresses != [] && forall i :: 0 <= i < |addresses| ==> InCidrs(env, cidrs, addresses[i])
  }

  /** DNS all or nothing: `resolveHost` returns the candidates exactly when all of them are inside. */
  lemma ResolveExactly(env: Env, host: string, cidrs: seq<string>, answer: Option<seq<Addr>>)
    requires GoodCidrs(env, cidrs)
    ensures var r := Resolve(env, host, CompiledPrefixes(env, cidrs), answer);
      && (r.Resolved? <==> AnswerInside(env, host, cidrs, answer))
      && (r.Resolved? ==> Some(r.addresses) == Candidates(env, host, answer) && r.addresses != []
                          && forall i :: 0 <= i < |r.addresses| ==> PrivateRange(r.addresses[i]))
  {
    if Candidates(env, host, answer).Some? {
      var addresses := Candidates(env, host, answer).value;
      forall i | 0 <= i < |addresses|
        ensures Allowed(CompiledPrefixes(env, cidrs), addresses[i]) <==> InCidrs(env, cidrs, addresses[i])
        ensures InCidrs(env, cidrs, addresses[i]) ==> PrivateRange(addresses[i])
      {
        AllowedMeans(env, cidrs, addresses[i]);
      }
    }
  }

  /** The dial function of service i for the service j whose name it resolves to. */
  ghost predicate Reaches(env: Env, s: ServiceConfig, answer: Option<seq<Addr>>, r: Outcome) {
    && r.Dial? && AnswerInside(env, s.host, s.cidrs, answer)
    && r.addr == Candidates(env, s.host, answer).value[0]
    && InCidrs(env, s.cidrs, r.addr) && PrivateRange(r.addr)
    && r.port == s.port && r.secure == s.tls
  }

  lemma DialFirstReaches(env: Env, s: ServiceConfig, answer: Option<seq<Addr>>)
    requires GoodCidrs(env, s.cidrs)
    ensures var r := DialFirst(Resolve(env, s.host, CompiledPrefixes(env, s.cidrs), answer), s.port, s.tls);
      (r.Dial? ==> Reaches(env, s, answer, r)) && (r.Dial? <==> AnswerInside(env, s.host, s.cidrs, answer))
  {
    ResolveExactly(env, s.host, s.cidrs, answer);
  }

  /** A later service whose identifier decodes to the same 16 bytes takes the virtual name over. */
  ghost predicate Shadowed(services: seq<ServiceConfig>, i: nat)
    requires i < |services|
  {
    exists j :: i < j < |services| && GoDecode(services[j].id) == GoDecode(services[i].id)
  }

  /** j is the last service with the 16 bytes of service i. */
  ghost predicate Holder(services: seq<ServiceConfig>, i: nat, j: nat)
    requires i < |services|
  {
    && i <= j < |services| && GoDecode(services[j].id) == GoDecode(services[i].id)
    && forall m :: j < m < |services| ==> GoDecode(services[m].id) != GoDecode(services[i].id)
  }

  lemma SameHost(env: Env, services: seq<ServiceConfig>, i: nat, j: nat)
    requires GoodServices(env, services) && i < |services| && j < |services|
    ensures HostOf(services[i].id) == HostOf(services[j].id) <==> GoDecode(services[i].id) == GoDecode(services[j].id)
  {
    assert GoodService(env, services[i]) && GoodService(env, services[j]);
    HostnamesSeparate(services[i].id, services[j].id);
  }

  /** Who answers to the virtual name of service i. */
  lemma VirtualHolder(env: Env, services: seq<ServiceConfig>, i: nat) returns (j: nat)
    requires GoodServices(env, services) && i < |services|
    ensures Holder(services, i, j)
    ensures var m := ByVirtual(env, services, |services|);
      HostOf(services[i].id) in m && m[HostOf(services[i].id)] == CompileOne(env, services[j])
  {
    var n, hosts := |services|, Hosts(services);
    SomeLast(hosts, n, i);
    j :| i <= j && Last(hosts, n, j, hosts[i]);
    LastWins(hosts, CompileAll(env, services), n, j, hosts[i]);
    SameHost(env, services, i, j);
    forall m | j < m < n
      ensures GoDecode(services[m].id) != GoDecode(services[i].id)
    {
      SameHost(env, services, i, m);
      assert hosts[m] != hosts[i];
    }
  }

  /** A peer of service i asks for a name and a port: the request is refused, or it is looked up under
      the service's own virtual name. */
  lemma ServiceDialLookup(env: Env, c: Config, i: nat, host: string, port: nat, answer: Option<seq<Addr>>)
    requires FoldLaw(env) && GoodConfig(env, c) && i < |c.services|
    ensures var policy := PolicyOf(env, c); var s := c.services[i];
      var r := ServiceDial(env, policy, s.id, host, port, answer);
      if env.equalFold(host, HostOf(s.id)) && port == VirtualPort(s) && env.toLower(host) == HostOf(s.id)
      then r == DialVirtual(env, policy, host, port, answer)
      else r == Refused
  {
    var policy, s := PolicyOf(env, c), c.services[i];
    ByIdExact(env, c.services, s.id);
    assert VirtualAuthority(policy, s.id) == (HostOf(s.id), VirtualPort(s));
    if env.equalFold(host, HostOf(s.id)) && env.toLower(host) != HostOf(s.id) {
      NotInMap(env, c.services, s.id, host);
    }
  }

  lemma NotInMap(env: Env, services: seq<ServiceConfig>, id: string, host: string)
    requires FoldLaw(env) && GoodServices(env, services) && ValidOpaqueId(id)
    requires env.equalFold(host, HostOf(id)) && env.toLower(host) != HostOf(id)
    ensures env.toLower(host) !in ByVirtual(env, services, |services|)
  {
    HostIsLower(id);
    if env.toLower(host) in ByVirtual(env, services, |services|) {
      OnlyKeys(Hosts(services), CompileAll(env, services), |services|, env.toLower(host));
      var j :| 0 <= j < |services| && HostOf(services[j].id) == env.toLower(host);
      assert GoodService(env, services[j]);
      HostIsLower(services[j].id);
    }
  }

  /** Containment: whatever name and port a peer asks for and whatever the resolver answers, a dial goes
      to the first answer only when every answer lies in the CIDRs of the configured service that holds
      the peer's 16-byte identifier, to that service's port, and only to a private or loopback address. */
  lemma DialContainment(env: Env, c: Config, id: string, host: string, port: nat, answer: Option<seq<Addr>>)
    requires FoldLaw(env) && GoodConfig(env, c)
    ensures var r := ServiceDial(env, PolicyOf(env, c), id, host, port, answer);
      r.Dial? ==> exists i, j :: Contained(env, c.services, i, j, id, answer, r)
  {
    var policy := PolicyOf(env, c);
    var r := ServiceDial(env, policy, id, host, port, answer);
    if r.Dial? {
      if i :| 0 <= i < |c.services| && c.services[i].id == id {
        var j := DialGoesToHolder(env, c, i, host, port, answer);
        assert Contained(env, c.services, i, j, id, answer, r);
      } else {
        ByIdExact(env, c.services, id);
        assert VirtualAuthority(policy, id) == ("", 0);
        NoPortZero(env, policy, host, answer);
      }
    }
  }

  lemma NoPortZero(env: Env, policy: Policy, host: string, answer: Option<seq<Addr>>)
    ensures DialVirtual(env, policy, host, 0, answer) == Refused
  {
  }

  ghost predicate Contained(env: Env, services: seq<ServiceConfig>, i: nat, j: nat, id: string, answer: Option<seq<Addr>>, r: Outcome) {
    i < |services| && services[i].id == id && Holder(services, i, j) && Reaches(env, services[j], answer, r)
  }

  /** For a good service the virtual port tells whether it uses TLS. */
  lemma PortTellsTls(env: Env, s: ServiceConfig)
    requires GoodService(env, s)
    ensures VirtualPort(s) == if s.tls then 443 else 80
  {
  }

  lemma DialGoesToHolder(env: Env, c: Config, i: nat, host: string, port: nat, answer: Option<seq<Addr>>) returns (j: nat)
    requires FoldLaw(env) && GoodConfig(env, c) && i < |c.services|
    ensures Holder(c.services, i, j)
    ensures var r := ServiceDial(env, PolicyOf(env, c), c.services[i].id, host, port, answer);
      && (r.Dial? ==> Reaches(env, c.services[j], answer, r))
      && (r.Dial? <==> Asks(env, c.services[i], host, port) && port == (if c.services[j].tls then 443 else 80)
                       && AnswerInside(env, c.services[j].host, c.services[j].cidrs, answer))
  {
    j := VirtualHolder(env, c.services, i);
    PortTellsTls(env, c.services[i]);
    PortTellsTls(env, c.services[j]);
    ServiceDialLookup(env, c, i, host, port, answer);
    assert GoodService(env, c.services[j]);
    DialFirstReaches(env, c.services[j], answer);
  }

  /** The request names the service: its virtual host in any ASCII case, and port 443 exactly if it uses TLS. */
  ghost predicate Asks(env: Env, s: ServiceConfig, host: string, port: nat) {
    env.equalFold(host, HostOf(s.id)) && env.toLower(host) == HostOf(s.id) && port == if s.tls then 443 else 80
  }

  /** A service that no later one shadows is reached exactly by requests for it that resolve inside its
      own CIDRs. */
  lemma DialExactly(env: Env, c: Config, i: nat, host: string, port: nat, answer: Option<seq<Addr>>)
    requires FoldLaw(env) && GoodConfig(env, c) && i < |c.services| && !Shadowed(c.services, i)
    ensures var s := c.services[i];
      var r := ServiceDial(env, PolicyOf(env, c), s.id, host, port, answer);
      && (r.Dial? <==> Asks(env, s, host, port) && AnswerInside(env, s.host, s.cidrs, answer))
      && (r.Dial? ==> Reaches(env, s, answer, r))
  {
    var j := DialGoesToHolder(env, c, i, host, port, answer);
    assert j == i;
  }

  /** Availability: asked for its own virtual name and port, an unshadowed service is dialled whenever
      all answers lie in its CIDRs. */
  lemma OwnNameDials(env: Env, c: Config, i: nat, answer: Option<seq<Addr>>)
    requires FoldLaw(env) && GoodConfig(env, c) && i < |c.services| && !Shadowed(c.services, i)
    requires AnswerInside(env, c.services[i].host, c.services[i].cidrs, answer)
    ensures var s := c.services[i];
      Reaches(env, s, answer, ServiceDial(env, PolicyOf(env, c), s.id, HostOf(s.id), if s.tls then 443 else 80, answer))
  {
    var s := c.services[i];
    assert GoodService(env, s);
    OwnNameAsks(env, s);
    DialExactly(env, c, i, HostOf(s.id), if s.tls then 443 else 80, answer);
  }

  /** The compiled policy leads a service's virtual name to the service itself exactly when no later
      service's identifier decodes to the same bytes. */
  lemma OwnServiceExactly(env: Env, c: Config, i: nat)
    requires GoodConfig(env, c) && i < |c.services|
    ensures var m := PolicyOf(env, c).byVirtual; var host := HostOf(c.services[i].id);
      host in m && (m[host].config == c.services[i] <==> !Shadowed(c.services, i))
  {
    var j := VirtualHolder(env, c.services, i);
    HolderIsOwn(c.services, i, j);
  }

  lemma HolderIsOwn(services: seq<ServiceConfig>, i: nat, j: nat)
    requires Unrepeated(services) && i < |services| && Holder(services, i, j)
    ensures services[j] == services[i] <==> !Shadowed(services, i)
  {
    if i < j {
      assert services[i].id != services[j].id;
    }
  }

  /** Validation does not exclude that: any two services that are fine by themselves pass it together
      when their identifiers are spelt differently, even if they decode to the same bytes.  Then a peer of
      the first is connected to the second, exactly when its request also fits the second and the answer
      lies in the CIDRs of the second. */
  lemma ShadowingPasses(env: Env, s: ServiceConfig, t: ServiceConfig, host: string, port: nat, answer: Option<seq<Addr>>)
    requires FoldLaw(env) && GoodService(env, s) && GoodService(env, t) && s.policyRef != t.policyRef
    requires s.id != t.id && GoDecode(s.id) == GoDecode(t.id)
    ensures GoodConfig(env, Config(true, [s, t], None))
    ensures var r := ServiceDial(env, PolicyOf(env, Config(true, [s, t], None)), s.id, host, port, answer);
      && (r.Dial? <==> Asks(env, s, host, port) && t.tls == s.tls && AnswerInside(env, t.host, t.cidrs, answer))
      && (r.Dial? ==> Reaches(env, t, answer, r))
  {
    var c := PairOf(env, s, t);
    assert c.services[0] == s && c.services[1] == t;
    var j := DialGoesToHolder(env, c, 0, host, port, answer);
    assert j == 1;
  }

  lemma PairOf(env: Env, s: ServiceConfig, t: ServiceConfig) returns (c: Config)
    requires GoodService(env, s) && GoodService(env, t) && s.policyRef != t.policyRef && s.id != t.id
    ensures c == Config(true, [s, t], None) && GoodConfig(env, c)
  {
    c := Config(true, [s, t], None);
    assert GoodServices(env, [s, t]);
  }

  // ----- an instance -----

  /** Case folding of ASCII text, one literal address and one prefix. */
  function SampleEnv(): Env {
    Env(text => if text == "10.0.0.0/8" then Some(Prefix(V4(Dotted(10, 0, 0, 0)), 8)) else None,
        text => if text == "10.0.0.1" then Some(V4(Dotted(10, 0, 0, 1))) else None,
        text => text == "10.0.0.1", (a, b) => Lower(a) == Lower(b), Lower, _ => true)
  }

  function SampleService(): ServiceConfig {
    ServiceConfig(seq(21, _ => 'A') + "A", "ref", "http", "10.0.0.1", 8080, ["10.0.0.0/8"], false, true)
  }

  lemma LowerFixed(text: string)
    requires LowerAscii(text)
    ensures Lower(text) == text
  {
  }

  lemma SampleFolds()
    ensures Sound(SampleEnv()) && FoldLaw(SampleEnv())
  {
    forall text | LowerAscii(text)
      ensures Lower(text) == text
    {
      LowerFixed(text);
    }
  }

  lemma SampleInside()
    ensures GoodCidr(SampleEnv(), "10.0.0.0/8") && InCidr(SampleEnv(), "10.0.0.0/8", V4(Dotted(10, 0, 0, 1)))
  {
    var p := Prefix(V4(Dotted(10, 0, 0, 0)), 8);
    assert p == PermittedNetworks()[0];
    assert Covers(PermittedNetworks()[0], Masked(p));
    Spans();
    V4Interval(V4(Dotted(10, 0, 0, 1)), p, 0x100_0000, 10);
  }

  lemma SampleGood()
    ensures GoodConfig(SampleEnv(), Config(true, [SampleService()], None))
  {
    SampleInside();
    SpareBits(seq(21, _ => 'A'), 'A', 'A');
    assert GoodService(SampleEnv(), SampleService());
  }

  lemma SampleAnswer()
    ensures AnswerInside(SampleEnv(), "10.0.0.1", ["10.0.0.0/8"], None)
  {
    SampleInside();
    var a := V4(Dotted(10, 0, 0, 1));
    assert Candidates(SampleEnv(), "10.0.0.1", None) == Some([a]);
    assert InCidr(SampleEnv(), ["10.0.0.0/8"][0], a);
  }

  /** The laws assumed of the library and a valid configuration can be met together, and then a request
      for the service does get its connection. */
  lemma DialHappens()
    ensures var env, s := SampleEnv(), SampleService(); var c := Config(true, [s], None);
      && Sound(env) && FoldLaw(env) && GoodConfig(env, c)
      && Reaches(env, s, None, ServiceDial(env, PolicyOf(env, c), s.id, HostOf(s.id), 80, None))
  {
    var c := Config(true, [SampleService()], None);
    SampleFolds();
    SampleGood();
    SampleAnswer();
    assert c.services[0] == SampleService();
    OwnNameDials(SampleEnv(), c, 0, None);
  }

  /** A second service of the same decoded identifier, with another port. */
  function SampleTwin(): ServiceConfig {
    SampleService().(id := seq(21, _ => 'A') + "B", policyRef := "twin", port := 9090)
  }

  lemma TwinGood()
    ensures GoodService(SampleEnv(), SampleService()) && GoodService(SampleEnv(), SampleTwin())
    ensures SampleService().id != SampleTwin().id && GoDecode(SampleService().id) == GoDecode(SampleTwin().id)
  {
    SampleInside();
    SpareBits(seq(21, _ => 'A'), 'A', 'B');
    assert SampleService().id[21] != SampleTwin().id[21];
  }

  lemma OwnNameAsks(env: Env, s: ServiceConfig)
    requires FoldLaw(env) && ValidOpaqueId(s.id)
    ensures Asks(env, s, HostOf(s.id), if s.tls then 443 else 80)
  {
    HostIsLower(s.id);
  }

  /** An instance of shadowing: the identifiers "AA...AA" and "AA...AB" pass validation together, and a
      peer of the first that asks for its own name and port is connected to the port of the second. */
  lemma ShadowingHappens()
    ensures var env, s, t := SampleEnv(), SampleService(), SampleTwin(); var c := Config(true, [s, t], None);
      && FoldLaw(env) && GoodConfig(env, c) && s.port == 8080
      && var r := ServiceDial(env, PolicyOf(env, c), s.id, HostOf(s.id), 80, None);
         Reaches(env, t, None, r) && r.port == 9090
  {
    var env, s, t := SampleEnv(), SampleService(), SampleTwin();
    SampleFolds();
    SampleAnswer();
    TwinGood();
    OwnNameAsks(env, s);
    ShadowingPasses(env, s, t, HostOf(s.id), 80, None);
  }

  // ----- temporary targets -----

  datatype TemporaryTarget = TemporaryTarget(serviceId: string, kind: string, host: string, port: nat)

  /** `compiledTemporaryTarget`; it dials with TLS exactly for kind "https". */
  datatype Target = Target(config: TemporaryTarget, addresses: seq<Addr>, virtual: string)

  datatype Preparation = Prepared(target: Target) | PrepareBlocked | PrepareFailed

  /** The Agent's own addresses and loopback are off limits. */
  predicate Foreign(local: set<Addr>, a: Addr) {
    !IsLoopback(a) && a !in local
  }

  predicate Acceptable(env: Env, policy: Policy, t: TemporaryTarget) {
    && policy.temporary.Some? && ValidOpaqueId(t.serviceId) && (t.kind == "http" || t.kind == "https")
    && env.validHostname(t.host) && t.port in policy.temporary.value.ports
  }

  /** What `Policy.PrepareTemporary` returns; `local` is None when the interfaces cannot be listed, and
      `tlsOk` is the verdict on the TLS configuration of an https target. */
  function Prepare(env: Env, policy: Policy, t: TemporaryTarget, answer: Option<seq<Addr>>, local: Option<set<Addr>>, tlsOk: bool): Preparation {
    if !Acceptable(env, policy, t) then PrepareBlocked
    else
      match Resolve(env, t.host, policy.temporary.value.prefixes, answer)
      case Resolved(addresses) =>
        if local.None? then PrepareFailed
        else if exists i :: 0 <= i < |addresses| && !Foreign(local.value, addresses[i]) then PrepareBlocked
        else if t.kind == "https" && !tlsOk then PrepareFailed
        else Prepared(Target(t, addresses, HostOf(t.serviceId)))
      case Blocked => PrepareBlocked
      case _ => PrepareFailed
  }

  /** The loop of `PrepareTemporary` over the resolved addresses. */
  method AllForeign(local: set<Addr>, addresses: seq<Addr>) returns (ok: bool)
    ensures ok <==> forall i :: 0 <= i < |addresses| ==> Foreign(local, addresses[i])
  {
    for i := 0 to |addresses|
      invariant forall j :: 0 <= j < i ==> Foreign(local, addresses[j])
    {
      if IsLoopback(addresses[i]) || addresses[i] in local {
        assert !Foreign(local, addresses[i]);
        return false;
      }
    }
    return true;
  }

  method PrepareTemporary(env: Env, policy: Policy, t: TemporaryTarget, answer: Option<seq<Addr>>, local: Option<set<Addr>>, tlsOk: bool)
    returns (r: Preparation)
    requires policy.temporary.Some? ==>
      forall i :: 0 <= i < |policy.temporary.value.prefixes| ==> Cidr.Valid(policy.temporary.value.prefixes[i])
    ensures r == Prepare(env, policy, t, answer, local, tlsOk)
  {
    if !Acceptable(env, policy, t) {
      return PrepareBlocked;
    }
    var resolution := ResolveHost(env, t.host, policy.temporary.value.prefixes, answer);
    if resolution.Blocked? {
      return PrepareBlocked;
    }
    if !resolution.Resolved? || local.None? {
      return PrepareFailed;
    }
    var addresses := resolution.addresses;
    var foreign := AllForeign(local.value, addresses);
    if !foreign {
      return PrepareBlocked;
    }
    if t.kind == "https" && !tlsOk {
      return PrepareFailed;
    }
    return Prepared(Target(t, addresses, HostOf(t.serviceId)));
  }

  /** None of the addresses is loopback or the Agent's own. */
  predicate AllForeignTo(local: set<Addr>, addresses: seq<Addr>) {
    forall i :: 0 <= i < |addresses| ==> !IsLoopback(addresses[i]) && addresses[i] !in local
  }

  lemma PrepareDecides(env: Env, policy: Policy, t: TemporaryTarget, answer: Option<seq<Addr>>, local: Option<set<Addr>>, tlsOk: bool)
    requires policy.temporary.Some?
    ensures var r := Prepare(env, policy, t, answer, local, tlsOk); var found := Resolve(env, t.host, policy.temporary.value.prefixes, answer);
      && (r.Prepared? <==>
            && ValidOpaqueId(t.serviceId) && t.kind in {"http", "https"} && env.validHostname(t.host) && t.port in policy.temporary.value.ports
            && found.Resolved? && local.Some? && AllForeignTo(local.value, found.addresses) && (tlsOk || t.kind == "http"))
      && (r.Prepared? ==> r.target == Target(t, found.addresses, HostOf(t.serviceId)))
      && (r.PrepareBlocked? <==>
            || !ValidOpaqueId(t.serviceId) || t.kind !in {"http", "https"} || !env.validHostname(t.host) || t.port !in policy.temporary.value.ports
            || found.Blocked? || (found.Resolved? && local.Some? && !AllForeignTo(local.value, found.addresses)))
  {
  }

  /** For every validated configuration a target is prepared if and only if temporary targets are configured, the
      request is well formed and for an allowed port, all answers lie in the CIDRs, none of them is the Agent
      itself, and TLS can be set up where it is asked for; what is prepared is then fixed. */
  lemma PreparedExactly(env: Env, c: Config, t: TemporaryTarget, answer: Option<seq<Addr>>, local: Option<set<Addr>>, tlsOk: bool)
    requires GoodConfig(env, c)
    ensures var r := Prepare(env, PolicyOf(env, c), t, answer, local, tlsOk); var candidates := Candidates(env, t.host, answer);
      && (r.Prepared? <==>
            && c.temporary.Some? && ValidOpaqueId(t.serviceId) && t.kind in {"http", "https"} && env.validHostname(t.host)
            && t.port in c.temporary.value.ports && AnswerInside(env, t.host, c.temporary.value.cidrs, answer)
            && local.Some? && AllForeignTo(local.value, candidates.value) && (tlsOk || t.kind == "http"))
      && (r.Prepared? ==> r.target == Target(t, candidates.value, HostOf(t.serviceId)))
  {
    if c.temporary.Some? {
      PrepareDecides(env, PolicyOf(env, c), t, answer, local, tlsOk);
      ResolveExactly(env, t.host, c.temporary.value.cidrs, answer);
    }
  }

  /** `Policy.DialTemporary`: no name is resolved again. */
  function DialTemporary(env: Env, target: Option<Target>, host: string, port: nat): Outcome {
    if target.None? || !env.equalFold(host, target.value.virtual)
       || port != (if target.value.config.kind == "https" then 443 else 80) then Refused
    else DialFirst(Resolved(target.value.addresses), target.value.config.port, target.value.config.kind == "https")
  }

  /** All that a prepared target can ever be. */
  ghost predicate Vetted(env: Env, c: TemporaryConfig, local: set<Addr>, target: Target) {
    && target.addresses != [] && target.config.port in c.ports && target.config.port != 0
    && (forall i :: 0 <= i < |target.addresses| ==>
          InCidrs(env, c.cidrs, target.addresses[i]) && PrivateRange(target.addresses[i]) && Foreign(local, target.addresses[i]))
  }

  lemma PreparedIsVetted(env: Env, c: Config, t: TemporaryTarget, answer: Option<seq<Addr>>, local: Option<set<Addr>>, tlsOk: bool)
    requires GoodConfig(env, c)
    ensures var r := Prepare(env, PolicyOf(env, c), t, answer, local, tlsOk);
      r.Prepared? ==> && c.temporary.Some? && local.Some? && r.target.config == t && r.target.virtual == HostOf(t.serviceId)
                      && Vetted(env, c.temporary.value, local.value, r.target)
  {
    if c.temporary.Some? {
      ResolveExactly(env, t.host, c.temporary.value.cidrs, answer);
    }
  }

  /** Containment for temporary services: after a successful preparation every dial, under any name and
      port, is refused or goes to the one vetted address and port. */
  lemma TemporaryContainment(env: Env, c: Config, t: TemporaryTarget, answer: Option<seq<Addr>>, local: Option<set<Addr>>,
                             tlsOk: bool, host: string, port: nat)
    requires GoodConfig(env, c) && Prepare(env, PolicyOf(env, c), t, answer, local, tlsOk).Prepared?
    ensures var r := DialTemporary(env, Some(Prepare(env, PolicyOf(env, c), t, answer, local, tlsOk).target), host, port);
      && (r.Dial? <==> env.equalFold(host, HostOf(t.serviceId)) && port == if t.kind == "https" then 443 else 80)
      && (r.Dial? ==> && c.temporary.Some? && InCidrs(env, c.temporary.value.cidrs, r.addr) && PrivateRange(r.addr)
                      && !IsLoopback(r.addr) && local.Some? && r.addr !in local.value
                      && r.port == t.port && r.port in c.temporary.value.ports && r.secure == (t.kind == "https"))
  {
    PreparedIsVetted(env, c, t, answer, local, tlsOk);
  }
}
