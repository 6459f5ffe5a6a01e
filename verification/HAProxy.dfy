/** The HAProxy configuration generator (ext/lb/haproxy/generate.go). */
module HAProxy {
  import opened Wrappers
  import opened Text
  import opened Lists
  import opened Containers

  datatype Upstream = Upstream(container: string, addr: string, checkInterval: int)

  /** A nil ContextRoot pointer is None. */
  datatype Host = Host(
    name: string,
    contextRoot: Option<ContextRoot>,
    contextRootRewrite: bool,
    domain: string,
    check: string,
    backendOptions: seq<string>,
    upstreams: seq<Upstream>,
    sslOnly: bool,
    sslBackend: bool,
    sslBackendTLSVerify: string,
    balanceAlgorithm: string)

  datatype Config = Config(hosts: seq<Host>, networks: map<string, string>)

  // ---- Specification ----

  predicate Parsed(c: Info) { c.interval.Some? }

  predicate HasCheck(c: Info) { Parsed(c) && c.healthCheck != "" }

  predicate HasOptions(c: Info) { Parsed(c) && c.backendOptions != [] }

  /** This generator also skips a container whose health check interval is not a number. */
  predicate Accepts(c: Info) { Parsed(c) && HasAddress(c) }

  function UpstreamOf(c: Info): Upstream {
    Upstream(c.name, Address(c), c.interval.GetOr(0))
  }

  /** How often container c serves name k: once as its domain, and once for each such alias. */
  function Weight(c: Info, k: string): nat {
    if !Accepts(c) then 0 else Count(c.aliasDomains, k) + if EffectiveDomain(c) == k then 1 else 0
  }

  /** The accepted containers having k as domain or alias, in list order and with multiplicity. */
  function Upstreams(cs: seq<Info>, k: string): seq<Upstream> {
    if cs == [] then
      []
    else
      Upstreams(cs[..|cs| - 1], k) + Repeat(UpstreamOf(Last(cs)), Weight(Last(cs), k))
  }

  /** A name is served exactly when some container has a weight for it. */
  lemma {:induction false} UpstreamsNonEmpty(cs: seq<Info>, n: string)
    ensures Upstreams(cs, n) != [] <==> exists c :: c in cs && Weight(c, n) > 0
  {
    if cs != [] {
      UpstreamsNonEmpty(cs[..|cs| - 1], n);
      assert cs == cs[..|cs| - 1] + [Last(cs)];
      assert Last(cs) in cs;
    }
  }

  /** The host of name k. The check is that of the first container of the group that has one,
      the backend options that of the last, and the other settings come from the last container
      of the group with a parsable interval. A name that is only an alias has none of them. */
  function HostFor(cs: seq<Info>, k: string): Host {
    var group, parsed := Group(cs, k), Filter(Group(cs, k), Parsed);
    var checks, options := Filter(Group(cs, k), HasCheck), Filter(Group(cs, k), HasOptions);
    var roots := RootWriters(cs, Accepts, k);
    Host(
      Replace(k, '.', '_'),
      if roots == [] then None else Some(RootOf(Last(roots))),
      if group == [] then false else Last(group).contextRootRewrite,
      k,
      if checks == [] then "" else checks[0].healthCheck,
      if options == [] then [] else Last(options).backendOptions,
      Upstreams(cs, k),
      if parsed == [] then false else Last(parsed).sslOnly,
      if parsed == [] then false else Last(parsed).sslBackend,
      if parsed == [] then "" else Last(parsed).sslBackendTLSVerify,
      if parsed == [] then "" else Last(parsed).balanceAlgorithm)
  }

  function Domains(hosts: seq<Host>): seq<string> {
    Apply(hosts, (h: Host) => h.domain)
  }

  /** One host for each name that an accepted container has as domain or alias, in any order. */
  ghost predicate HostsOf(cs: seq<Info>, hosts: seq<Host>) {
    && Distinct(Domains(hosts))
    && (forall k :: k in Domains(hosts) <==> Upstreams(cs, k) != [])
    && (forall h :: h in hosts ==> h == HostFor(cs, h.domain))
  }

  // ---- Whose settings a host has ----

  /** The settings of a host, besides its names, upstreams and context root. */
  datatype Settings = Settings(
    contextRootRewrite: bool,
    check: string,
    backendOptions: seq<string>,
    sslOnly: bool,
    sslBackend: bool,
    sslBackendTLSVerify: string,
    balanceAlgorithm: string)

  const UNSET := Settings(false, "", [], false, false, "", "")

  function SettingsOf(h: Host): Settings {
    Settings(h.contextRootRewrite, h.check, h.backendOptions, h.sslOnly, h.sslBackend, h.sslBackendTLSVerify,
             h.balanceAlgorithm)
  }

  /** Only the containers of a host's own domain decide its settings, however many others have
      the name as alias: hosts of any two container lists agree when those containers do. */
  lemma {:induction false} SettingsAreTheDomains(cs: seq<Info>, hosts: seq<Host>, g: Host,
                                                 ds: seq<Info>, others: seq<Host>, h: Host)
    requires HostsOf(cs, hosts) && g in hosts && HostsOf(ds, others) && h in others
    requires Group(cs, g.domain) == Group(ds, h.domain)
    ensures SettingsOf(g) == SettingsOf(h)
  {
    assert g == HostFor(cs, g.domain) && h == HostFor(ds, h.domain);
  }

  /** A name that is only an alias has a host without any settings. */
  lemma {:induction false} AliasHostUnset(cs: seq<Info>, hosts: seq<Host>, g: Host)
    requires HostsOf(cs, hosts) && g in hosts && Group(cs, g.domain) == []
    ensures SettingsOf(g) == UNSET
  {
    assert g == HostFor(cs, g.domain);
  }

  /** The labels of a group set nothing: no container with a parsable interval has a check or an
      option, and the last such container has an explicitly empty balance algorithm and TLS mode. */
  predicate Silent(group: seq<Info>)
    requires Filter(group, Parsed) != []
  {
    var last := Last(Filter(group, Parsed));
    && (forall c :: c in group && Parsed(c) ==> c.healthCheck == "" && c.backendOptions == [])
    && group != [] && !Last(group).contextRootRewrite
    && !last.sslOnly && !last.sslBackend && last.sslBackendTLSVerify == "" && last.balanceAlgorithm == ""
  }

  lemma {:induction false} AcceptedIsParsed(cs: seq<Info>, c: Info)
    requires c in cs && Accepts(c)
    ensures Filter(Group(cs, EffectiveDomain(c)), Parsed) != []
  {
    GroupMembers(cs, EffectiveDomain(c));
    FilterMembers(Group(cs, EffectiveDomain(c)), Parsed, c);
  }

  lemma {:induction false} FirstOfFilter(group: seq<Info>, g: Info -> bool)
    ensures Filter(group, g) == [] <==> forall c :: c in group ==> !g(c)
    ensures Filter(group, g) != [] ==> g(Filter(group, g)[0]) && g(Last(Filter(group, g)))
  {
    forall c ensures c in Filter(group, g) <==> c in group && g(c) {
      FilterMembers(group, g, c);
    }
    if Filter(group, g) != [] {
      assert Filter(group, g)[0] in Filter(group, g) && Last(Filter(group, g)) in Filter(group, g);
    }
  }

  /** An alias that is no domain itself loses the settings of its container's domain, unless the
      domain's labels set nothing. */
  lemma {:induction false} AliasSettingsExactly(cs: seq<Info>, hosts: seq<Host>, c: Info, g: Host, h: Host)
    requires HostsOf(cs, hosts) && g in hosts && h in hosts && c in cs && Accepts(c)
    requires h.domain == EffectiveDomain(c) && g.domain in c.aliasDomains && Group(cs, g.domain) == []
    ensures Filter(Group(cs, h.domain), Parsed) != []
    ensures SettingsOf(g) == SettingsOf(h) <==> Silent(Group(cs, h.domain))
  {
    var group := Group(cs, h.domain);
    AliasHostUnset(cs, hosts, g);
    AcceptedIsParsed(cs, c);
    assert h == HostFor(cs, h.domain);
    FirstOfFilter(group, HasCheck);
    FirstOfFilter(group, HasOptions);
  }

  // ---- The tables of the loop ----

  function Check(c: Info): string { c.healthCheck }

  function Balance(c: Info): string { c.balanceAlgorithm }

  function Options(c: Info): seq<string> { c.backendOptions }

  function TlsVerify(c: Info): string { c.sslBackendTLSVerify }

  datatype Tables = Tables(
    proxyUpstreams: map<string, seq<Upstream>>,
    hostChecks: map<string, string>,
    hostBalanceAlgorithms: map<string, string>,
    hostContextRoots: map<string, ContextRoot>,
    hostContextRootRewrites: map<string, bool>,
    hostBackendOptions: map<string, seq<string>>,
    hostSSLOnly: map<string, bool>,
    hostSSLBackend: map<string, bool>,
    hostSSLBackendTLSVerify: map<string, string>,
    networks: map<string, string>)

  ghost predicate UpstreamTableAt(m: map<string, seq<Upstream>>, cs: seq<Info>, k: string) {
    Entry(m, k) == Upstreams(cs, k) && (k in m ==> m[k] != [])
  }

  ghost predicate UpstreamTable(m: map<string, seq<Upstream>>, cs: seq<Info>) {
    forall k :: UpstreamTableAt(m, cs, k)
  }

  /** The settings agree with the group-by over the containers read so far. */
  ghost predicate SettingsAgree(t: Tables, cs: seq<Info>) {
    && FirstWins(t.hostChecks, cs, HasCheck, Check)
    && LastWins(t.hostBalanceAlgorithms, cs, Parsed, Balance)
    && LastWins(t.hostBackendOptions, cs, HasOptions, Options)
    && LastWins(t.hostSSLOnly, cs, Parsed, SslOnly)
    && LastWins(t.hostSSLBackend, cs, Parsed, SslBackend)
    && LastWins(t.hostSSLBackendTLSVerify, cs, Parsed, TlsVerify)
  }

  /** Each map agrees with the specification over the containers read so far. */
  ghost predicate Agrees(t: Tables, cs: seq<Info>) {
    && SettingsAgree(t, cs)
    && UpstreamTable(t.proxyUpstreams, cs)
    && RootTable(t.hostContextRoots, cs, Accepts)
    && LastWins(t.hostContextRootRewrites, cs, Always, Rewrite)
    && NetworkTable(t.networks, cs, Accepts)
  }

  lemma {:induction false} UpstreamTableStep(m: map<string, seq<Upstream>>, cs: seq<Info>, c: Info)
    requires UpstreamTable(m, cs)
    ensures UpstreamTable(if Accepts(c) then PushUnder(m, c.aliasDomains + [EffectiveDomain(c)], UpstreamOf(c)) else m,
                          cs + [c])
  {
    var keys := c.aliasDomains + [EffectiveDomain(c)];
    var m' := if Accepts(c) then PushUnder(m, keys, UpstreamOf(c)) else m;
    assert (cs + [c])[..|cs|] == cs && keys[..|keys| - 1] == c.aliasDomains;
    forall k | k in m ensures m[k] != [] {
      assert UpstreamTableAt(m, cs, k);
    }
    PushUnderNonEmpty(m, keys, UpstreamOf(c));
    forall k ensures UpstreamTableAt(m', cs + [c], k) {
      assert UpstreamTableAt(m, cs, k);
      PushUnderMeaning(m, keys, UpstreamOf(c), k);
      assert Upstreams(cs, k) + Repeat(UpstreamOf(c), 0) == Upstreams(cs, k);
    }
  }

  // ---- The generator ----

  /** The settings of a container with a parsable interval, recorded even when it gets no address. */
  method RecordSettings(t: Tables, ghost cs: seq<Info>, c: Info) returns (r: Tables)
    requires SettingsAgree(t, cs) && Parsed(c)
    ensures SettingsAgree(r, cs + [c])
    ensures r.proxyUpstreams == t.proxyUpstreams && r.hostContextRoots == t.hostContextRoots
    ensures r.hostContextRootRewrites == t.hostContextRootRewrites && r.networks == t.networks
  {
    var checks := KeepFirst(t.hostChecks, cs, c, c.healthCheck != "", c.healthCheck, HasCheck, Check);
    var algorithms := Overwrite(t.hostBalanceAlgorithms, cs, c, true, c.balanceAlgorithm, Parsed, Balance);
    var options := Overwrite(t.hostBackendOptions, cs, c, |c.backendOptions| > 0, c.backendOptions,
                             HasOptions, Options);
    var sslOnly := Overwrite(t.hostSSLOnly, cs, c, true, c.sslOnly, Parsed, SslOnly);
    var sslBackend := Overwrite(t.hostSSLBackend, cs, c, true, c.sslBackend, Parsed, SslBackend);
    var tlsVerify := Overwrite(t.hostSSLBackendTLSVerify, cs, c, true, c.sslBackendTLSVerify, Parsed, TlsVerify);
    r := t.(hostChecks := checks, hostBalanceAlgorithms := algorithms, hostBackendOptions := options,
            hostSSLOnly := sslOnly, hostSSLBackend := sslBackend, hostSSLBackendTLSVerify := tlsVerify);
  }

  lemma {:induction false} UnparsedStep(t: Tables, cs: seq<Info>, c: Info)
    requires SettingsAgree(t, cs) && !Parsed(c)
    ensures SettingsAgree(t, cs + [c])
  {
    FirstWinsStep(t.hostChecks, cs, c, HasCheck, Check);
    LastWinsStep(t.hostBalanceAlgorithms, cs, c, Parsed, Balance);
    LastWinsStep(t.hostBackendOptions, cs, c, HasOptions, Options);
    LastWinsStep(t.hostSSLOnly, cs, c, Parsed, SslOnly);
    LastWinsStep(t.hostSSLBackend, cs, c, Parsed, SslBackend);
    LastWinsStep(t.hostSSLBackendTLSVerify, cs, c, Parsed, TlsVerify);
  }

  /** The body of the first loop for a container that passes the domain filter. */
  method Record(t: Tables, ghost cs: seq<Info>, c: Info) returns (r: Tables)
    requires Agrees(t, cs)
    ensures Agrees(r, cs + [c])
  {
    var domain := EffectiveDomain(c);
    RootTableStep(t.hostContextRoots, cs, c, Accepts);
    LastWinsStep(t.hostContextRootRewrites, cs, c, Always, Rewrite);
    UpstreamTableStep(t.proxyUpstreams, cs, c);
    NetworkTableStep(t.networks, cs, c, Accepts);

    r := t.(hostContextRoots := t.hostContextRoots[domain := RootOf(c)],
            hostContextRootRewrites := t.hostContextRootRewrites[domain := c.contextRootRewrite]);
    if c.interval.None? {
      UnparsedStep(r, cs, c);
      return;
    }
    r := RecordSettings(r, cs, c);
    if c.backend.address.None? {
      return;
    }
    if c.backend.Overlay? {
      r := r.(networks := r.networks[c.backend.network := ""]);
    }
    var up := UpstreamOf(c);
    var upstreams := PushUnderEach(r.proxyUpstreams, c.aliasDomains, up);
    var roots := PutEach(r.hostContextRoots, c.aliasDomains, RootOf(c));
    assert (c.aliasDomains + [domain])[..|c.aliasDomains|] == c.aliasDomains;
    r := r.(hostContextRoots := roots, proxyUpstreams := upstreams[domain := Entry(upstreams, domain) + [up]]);
  }

  function HostAt(t: Tables, k: string): Host
    requires k in t.proxyUpstreams
  {
    Host(
      Replace(k, '.', '_'),
      if k in t.hostContextRoots then Some(t.hostContextRoots[k]) else None,
      Lookup(t.hostContextRootRewrites, k, false),
      k,
      Lookup(t.hostChecks, k, ""),
      Entry(t.hostBackendOptions, k),
      t.proxyUpstreams[k],
      Lookup(t.hostSSLOnly, k, false),
      Lookup(t.hostSSLBackend, k, false),
      Lookup(t.hostSSLBackendTLSVerify, k, ""),
      Lookup(t.hostBalanceAlgorithms, k, ""))
  }

  lemma {:induction false} HostAtIsHostFor(t: Tables, cs: seq<Info>, k: string)
    requires Agrees(t, cs) && k in t.proxyUpstreams
    ensures HostAt(t, k) == HostFor(cs, k)
  {
    FilterAlways(Group(cs, k));
    assert UpstreamTableAt(t.proxyUpstreams, cs, k);
    assert RootTableAt(t.hostContextRoots, cs, Accepts, k);
    assert LastWinsAt(t.hostContextRootRewrites, cs, Always, Rewrite, k);
    assert FirstWinsAt(t.hostChecks, cs, HasCheck, Check, k);
    assert LastWinsAt(t.hostBalanceAlgorithms, cs, Parsed, Balance, k);
    assert LastWinsAt(t.hostBackendOptions, cs, HasOptions, Options, k);
    assert LastWinsAt(t.hostSSLOnly, cs, Parsed, SslOnly, k);
    assert LastWinsAt(t.hostSSLBackend, cs, Parsed, SslBackend, k);
    assert LastWinsAt(t.hostSSLBackendTLSVerify, cs, Parsed, TlsVerify, k);
  }

  lemma {:induction false} DomainsStep(hosts: seq<Host>, h: Host)
    requires Distinct(Domains(hosts)) && h.domain !in Domains(hosts)
    ensures Distinct(Domains(hosts + [h]))
    ensures forall k :: k in Domains(hosts + [h]) <==> k in Domains(hosts) || k == h.domain
  {
    assert Domains(hosts + [h]) == Domains(hosts) + [h.domain];
  }

  lemma {:induction false} UpstreamKeys(m: map<string, seq<Upstream>>, cs: seq<Info>)
    requires UpstreamTable(m, cs)
    ensures forall k :: k in m <==> Upstreams(cs, k) != []
  {
    forall k ensures k in m <==> Upstreams(cs, k) != [] {
      assert UpstreamTableAt(m, cs, k);
    }
  }

  /** The second loop: one host for each key of proxyUpstreams, in the map's iteration order. */
  method BuildHosts(t: Tables, ghost cs: seq<Info>) returns (hosts: seq<Host>)
    requires Agrees(t, cs)
    ensures HostsOf(cs, hosts)
  {
    hosts := [];
    var keys := t.proxyUpstreams.Keys;
    while keys != {}
      invariant keys <= t.proxyUpstreams.Keys
      invariant Distinct(Domains(hosts))
      invariant forall k :: k in Domains(hosts) <==> k in t.proxyUpstreams.Keys - keys
      invariant forall h :: h in hosts ==> h == HostFor(cs, h.domain)
    {
      var k :| k in keys;
      keys := keys - {k};
      var h := HostAt(t, k);
      HostAtIsHostFor(t, cs, k);
      DomainsStep(hosts, h);
      hosts := hosts + [h];
    }
    UpstreamKeys(t.proxyUpstreams, cs);
  }

  ghost predicate HasHost(hosts: seq<Host>, k: string) {
    exists h :: h in hosts && h.domain == k
  }

  /** Container c has name k as key or alias, a numeric interval and an address. */
  ghost predicate ServesByLabels(c: Info, k: string) {
    c.interval.Some? && c.backend.address.Some? && (IsKey(c, k) || k in c.aliasDomains)
  }

  /** Some inspected container that is routed serves k. */
  ghost predicate Deserves(containers: seq<Inspection>, k: string) {
    exists c :: Available(c) in containers && (c.domain != "" || c.contextRoot != "") && ServesByLabels(c, k)
  }

  ghost predicate NamedByLabels(containers: seq<Inspection>, hosts: seq<Host>) {
    forall k :: HasHost(hosts, k) <==> Deserves(containers, k)
  }

  lemma {:induction false} WeightByLabels(c: Info, k: string)
    ensures Weight(c, k) > 0 <==> ServesByLabels(c, k)
    ensures Weight(c, k) == if c.interval.None? || c.backend.address.None? then 0
                            else multiset(c.aliasDomains)[k] + if IsKey(c, k) then 1 else 0
  {
    CountIsMultiplicity(c.aliasDomains, k);
    CountPositive(c.aliasDomains, k);
    KeyExactly(c, k);
  }

  lemma {:induction false} HostsNamed(containers: seq<Inspection>, hosts: seq<Host>)
    requires HostsOf(Routed(containers), hosts)
    ensures NamedByLabels(containers, hosts)
  {
    var cs := Routed(containers);
    forall k ensures HasHost(hosts, k) <==> Deserves(containers, k) {
      DomainIndex(hosts, k);
      UpstreamsNonEmpty(cs, k);
      RoutedMembers(containers);
      forall c ensures Weight(c, k) > 0 <==> ServesByLabels(c, k) {
        WeightByLabels(c, k);
      }
    }
  }

  lemma {:induction false} DomainIndex(hosts: seq<Host>, k: string)
    ensures k in Domains(hosts) <==> HasHost(hosts, k)
  {
    if k in Domains(hosts) {
      var i :| 0 <= i < |hosts| && Domains(hosts)[i] == k;
      assert hosts[i] in hosts;
    }
    if h :| h in hosts && h.domain == k {
      var i :| 0 <= i < |hosts| && hosts[i] == h;
      assert Domains(hosts)[i] == k;
    }
  }

  /** One failed inspection fails the whole generation. */
  method GenerateProxyConfig(containers: seq<Inspection>) returns (result: Result<Config, string>)
    ensures result.Failure? <==> Unavailable in containers
    ensures result.Success? ==> NamedByLabels(containers, result.value.hosts)
    ensures result.Success? ==> HostsOf(Routed(containers), result.value.hosts)
    ensures result.Success? ==> NetworkTable(result.value.networks, Routed(containers), Accepts)
  {
    var t := Tables(map[], map[], map[], map[], map[], map[], map[], map[], map[], map[]);
    ghost var cs: seq<Info> := [];
    for i := 0 to |containers|
      invariant Unavailable !in containers[..i]
      invariant cs == Routed(containers[..i])
      invariant Agrees(t, cs)
    {
      RoutedStep(containers, i);
      assert containers[..i + 1] == containers[..i] + [containers[i]];
      if containers[i].Unavailable? {
        return Failure("unable to inspect container");
      }
      if !Routable(containers[i].info) {
        continue;
      }
      t := Record(t, cs, containers[i].info);
      cs := cs + [containers[i].info];
    }
    assert containers[..|containers|] == containers;

    var hosts := BuildHosts(t, cs);
    HostsNamed(containers, hosts);
    result := Success(Config(hosts, t.networks));
  }
}
