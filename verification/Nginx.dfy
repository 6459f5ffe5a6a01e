/** The nginx configuration generator (ext/lb/nginx/generate.go). */
module Nginx {
  import opened Wrappers
  import opened Lists
  import opened Containers

  datatype Upstream = Upstream(name: string, servers: seq<string>)

  /** A nil ContextRoot pointer is None. */
  datatype Host = Host(
    serverNames: seq<string>,
    port: int,
    contextRoot: Option<ContextRoot>,
    contextRootRewrite: bool,
    sslPort: int,
    ssl: bool,
    sslCert: string,
    sslCertKey: string,
    sslOnly: bool,
    sslBackend: bool,
    upstream: Upstream,
    websocketEndpoints: seq<string>,
    ipHash: bool)

  datatype Config = Config(hosts: seq<Host>, networks: map<string, string>)

  /** The extension's settings; certPath is filepath.Join with the configured base path. */
  datatype Settings = Settings(port: int, sslPort: int, certPath: string -> string)

  // ---- Specification: a group-by over the routed containers ----

  function Accepted(cs: seq<Info>, k: string): seq<Info> {
    Filter(Group(cs, k), HasAddress)
  }

  predicate HasCert(c: Info) { c.sslCert != "" }

  predicate HasCertKey(c: Info) { c.sslCertKey != "" }

  function Aliases(c: Info): seq<string> { c.aliasDomains }

  function Endpoints(c: Info): seq<string> { c.websocketEndpoints }

  /** The host of effective domain k: its servers, names and endpoints come from all accepted
      containers of the group, its flags from the last routed one, its certificate and key
      from the last one that has such a label. */
  function HostFor(cs: seq<Info>, settings: Settings, k: string): Host
    requires Group(cs, k) != []
  {
    var group, accepted := Group(cs, k), Accepted(cs, k);
    var certs, keys := Filter(group, HasCert), Filter(group, HasCertKey);
    var roots := RootWriters(cs, HasAddress, k);
    Host(
      NamesOf(cs, k),
      settings.port,
      if roots == [] then None else Some(RootOf(Last(roots))),
      Last(group).contextRootRewrite,
      settings.sslPort,
      Last(group).ssl,
      if certs == [] then "" else settings.certPath(Last(certs).sslCert),
      if keys == [] then "" else settings.certPath(Last(keys).sslCertKey),
      Last(group).sslOnly,
      Last(group).sslBackend,
      Upstream(k, Apply(accepted, Address)),
      Concat(accepted, Endpoints),
      Last(group).ipHash)
  }

  function Names(hosts: seq<Host>): seq<string> {
    Apply(hosts, (h: Host) => h.upstream.name)
  }

  ghost predicate IsHost(cs: seq<Info>, settings: Settings, h: Host) {
    Group(cs, h.upstream.name) != [] && h == HostFor(cs, settings, h.upstream.name)
  }

  /** One host for each effective domain with an accepted container, in any order. */
  ghost predicate HostsOf(cs: seq<Info>, settings: Settings, hosts: seq<Host>) {
    && Distinct(Names(hosts))
    && (forall k :: k in Names(hosts) <==> Accepted(cs, k) != [])
    && (forall h :: h in hosts ==> IsHost(cs, settings, h))
  }

  // ---- The tables that only this generator builds ----

  function Ssl(c: Info): bool { c.ssl }

  function IpHash(c: Info): bool { c.ipHash }

  function CertOf(settings: Settings): Info -> string { (c: Info) => settings.certPath(c.sslCert) }

  function KeyOf(settings: Settings): Info -> string { (c: Info) => settings.certPath(c.sslCertKey) }

  function Addresses(c: Info): seq<string> { [Address(c)] }

  /** The server names of a group start with its key. */
  function NamesOf(cs: seq<Info>, k: string): seq<string> {
    [k] + Concat(Accepted(cs, k), Aliases)
  }

  ghost predicate NameTableAt(m: map<string, seq<string>>, cs: seq<Info>, k: string) {
    (k in m <==> Group(cs, k) != []) && (k in m ==> m[k] == NamesOf(cs, k))
  }

  ghost predicate NameTable(m: map<string, seq<string>>, cs: seq<Info>) {
    forall k :: NameTableAt(m, cs, k)
  }

  lemma {:induction false} NamesOfStep(cs: seq<Info>, c: Info, k: string)
    ensures NamesOf(cs + [c], k)
         == if EffectiveDomain(c) == k && HasAddress(c) then NamesOf(cs, k) + c.aliasDomains else NamesOf(cs, k)
  {
    FilteredGroupStep(cs, c, HasAddress, k);
    if EffectiveDomain(c) == k && HasAddress(c) {
      NamesOfSnoc(k, Accepted(cs, k), c);
    }
  }

  lemma {:induction false} NamesOfSnoc(k: string, accepted: seq<Info>, c: Info)
    ensures [k] + Concat(accepted + [c], Aliases) == [k] + Concat(accepted, Aliases) + c.aliasDomains
  {
    ConcatStep(accepted, c, Aliases);
  }

  lemma {:induction false} NameTableStep(m: map<string, seq<string>>, cs: seq<Info>, c: Info)
    requires NameTable(m, cs)
    ensures var k := EffectiveDomain(c);
            var m' := if k in m then m else m[k := [k]];
            NameTable(if HasAddress(c) then PushAll(m', k, c.aliasDomains) else m', cs + [c])
  {
    var key := EffectiveDomain(c);
    var own := if key in m then m else m[key := [key]];
    var m' := if HasAddress(c) then PushAll(own, key, c.aliasDomains) else own;
    forall k ensures NameTableAt(m', cs + [c], k) {
      assert NameTableAt(m, cs, k);
      NamesOfStep(cs, c, k);
      GroupStep(cs, c, k);
      if k == key {
        OwnNames(m, cs, k);
        assert own[k] == NamesOf(cs, k);
        NoAliases(own[k], c.aliasDomains);
      }
    }
  }

  /** The entry of a key starts with the key itself. */
  lemma {:induction false} OwnNames(m: map<string, seq<string>>, cs: seq<Info>, k: string)
    requires NameTableAt(m, cs, k)
    ensures (if k in m then m[k] else [k]) == NamesOf(cs, k)
  {
    if k !in m {
      assert Accepted(cs, k) == [];
    }
  }

  lemma {:induction false} NoAliases(names: seq<string>, aliases: seq<string>)
    ensures aliases == [] ==> names + aliases == names
  {
  }

  // ---- The generator ----

  lemma {:induction false} SingletonConcat(cs: seq<Info>)
    ensures Concat(cs, Addresses) == Apply(cs, Address)
  {
    if cs != [] {
      SingletonConcat(cs[..|cs| - 1]);
    }
  }

  /** A group with an accepted container is not empty. */
  lemma {:induction false} FilterOfEmpty(cs: seq<Info>, g: Info -> bool)
    ensures Filter(cs, g) != [] ==> cs != []
  {
  }

  lemma {:induction false} NamesStep(hosts: seq<Host>, h: Host)
    requires Distinct(Names(hosts)) && h.upstream.name !in Names(hosts)
    ensures Distinct(Names(hosts + [h]))
    ensures forall k :: k in Names(hosts + [h]) <==> k in Names(hosts) || k == h.upstream.name
  {
    assert Names(hosts + [h]) == Names(hosts) + [h.upstream.name];
  }

  /** A key is written exactly when its group has an accepted container. */
  lemma {:induction false} UpstreamKeys(m: map<string, seq<string>>, cs: seq<Info>)
    requires Appends(m, cs, HasAddress, Addresses)
    ensures forall k :: k in m <==> Accepted(cs, k) != []
  {
    forall k ensures k in m <==> Accepted(cs, k) != [] {
      assert AppendsAt(m, cs, HasAddress, Addresses, k);
      SingletonConcat(Accepted(cs, k));
    }
  }

  /** The maps that the first loop fills. */
  datatype Tables = Tables(
    upstreamServers: map<string, seq<string>>,
    serverNames: map<string, seq<string>>,
    hostContextRoots: map<string, ContextRoot>,
    hostContextRootRewrites: map<string, bool>,
    hostSSL: map<string, bool>,
    hostSSLCert: map<string, string>,
    hostSSLCertKey: map<string, string>,
    hostSSLOnly: map<string, bool>,
    hostSSLBackend: map<string, bool>,
    hostWebsocketEndpoints: map<string, seq<string>>,
    hostIPHash: map<string, bool>,
    networks: map<string, string>)

  /** The flags and certificates agree with the group-by over the containers read so far. */
  ghost predicate FlagsAgree(t: Tables, settings: Settings, cs: seq<Info>) {
    && LastWins(t.hostContextRootRewrites, cs, Always, Rewrite)
    && LastWins(t.hostSSL, cs, Always, Ssl)
    && LastWins(t.hostSSLCert, cs, HasCert, CertOf(settings))
    && LastWins(t.hostSSLCertKey, cs, HasCertKey, KeyOf(settings))
    && LastWins(t.hostSSLOnly, cs, Always, SslOnly)
    && LastWins(t.hostSSLBackend, cs, Always, SslBackend)
    && LastWins(t.hostIPHash, cs, Always, IpHash)
  }

  /** Each map agrees with the group-by over the containers read so far. */
  ghost predicate Agrees(t: Tables, settings: Settings, cs: seq<Info>) {
    && FlagsAgree(t, settings, cs)
    && Appends(t.upstreamServers, cs, HasAddress, Addresses)
    && Appends(t.hostWebsocketEndpoints, cs, HasAddress, Endpoints)
    && NameTable(t.serverNames, cs)
    && RootTable(t.hostContextRoots, cs, HasAddress)
    && NetworkTable(t.networks, cs, HasAddress)
  }

  method RecordCerts(t: Tables, settings: Settings, ghost cs: seq<Info>, c: Info)
    returns (cert: map<string, string>, key: map<string, string>)
    requires LastWins(t.hostSSLCert, cs, HasCert, CertOf(settings))
    requires LastWins(t.hostSSLCertKey, cs, HasCertKey, KeyOf(settings))
    ensures LastWins(cert, cs + [c], HasCert, CertOf(settings))
    ensures LastWins(key, cs + [c], HasCertKey, KeyOf(settings))
  {
    cert := Overwrite(t.hostSSLCert, cs, c, c.sslCert != "", settings.certPath(c.sslCert), HasCert, CertOf(settings));
    key := Overwrite(t.hostSSLCertKey, cs, c, c.sslCertKey != "", settings.certPath(c.sslCertKey),
                     HasCertKey, KeyOf(settings));
  }

  /** The labels of a container are recorded even when it gets no address. */
  method RecordLabels(t: Tables, settings: Settings, ghost cs: seq<Info>, c: Info) returns (r: Tables)
    requires FlagsAgree(t, settings, cs)
    ensures FlagsAgree(r, settings, cs + [c])
    ensures r.hostContextRoots == t.hostContextRoots[EffectiveDomain(c) := RootOf(c)]
    ensures r.serverNames == if EffectiveDomain(c) in t.serverNames then t.serverNames
                             else t.serverNames[EffectiveDomain(c) := [EffectiveDomain(c)]]
    ensures r.upstreamServers == t.upstreamServers && r.hostWebsocketEndpoints == t.hostWebsocketEndpoints
    ensures r.networks == t.networks
  {
    var domain := EffectiveDomain(c);
    var rewrites := Overwrite(t.hostContextRootRewrites, cs, c, true, c.contextRootRewrite, Always, Rewrite);
    var ssl := Overwrite(t.hostSSL, cs, c, true, c.ssl, Always, Ssl);
    var sslOnly := Overwrite(t.hostSSLOnly, cs, c, true, c.sslOnly, Always, SslOnly);
    var ipHash := Overwrite(t.hostIPHash, cs, c, true, c.ipHash, Always, IpHash);
    var sslBackend := Overwrite(t.hostSSLBackend, cs, c, true, c.sslBackend, Always, SslBackend);
    var cert, key := RecordCerts(t, settings, cs, c);
    var names := if domain in t.serverNames then t.serverNames else t.serverNames[domain := [domain]];
    r := t.(hostContextRoots := t.hostContextRoots[domain := RootOf(c)], hostContextRootRewrites := rewrites,
            serverNames := names, hostSSL := ssl, hostSSLOnly := sslOnly, hostIPHash := ipHash,
            hostSSLBackend := sslBackend, hostSSLCert := cert, hostSSLCertKey := key);
  }

  /** The body of the first loop for a container that passes the domain filter. */
  method Record(t: Tables, settings: Settings, ghost cs: seq<Info>, c: Info) returns (r: Tables)
    requires Agrees(t, settings, cs)
    ensures Agrees(r, settings, cs + [c])
  {
    var domain := EffectiveDomain(c);
    RootTableStep(t.hostContextRoots, cs, c, HasAddress);
    NameTableStep(t.serverNames, cs, c);
    AppendsStep(t.upstreamServers, cs, c, HasAddress, Addresses);
    AppendsStep(t.hostWebsocketEndpoints, cs, c, HasAddress, Endpoints);
    NetworkTableStep(t.networks, cs, c, HasAddress);

    r := RecordLabels(t, settings, cs, c);
    if c.backend.address.None? {
      return;
    }
    if c.backend.Overlay? {
      r := r.(networks := r.networks[c.backend.network := ""]);
    }
    var endpoints := AppendEach(r.hostWebsocketEndpoints, domain, c.websocketEndpoints);
    var names := AppendEach(r.serverNames, domain, c.aliasDomains);
    var roots := PutEach(r.hostContextRoots, c.aliasDomains, RootOf(c));
    r := r.(hostWebsocketEndpoints := endpoints, serverNames := names, hostContextRoots := roots,
            upstreamServers :=
              r.upstreamServers[domain := Entry(r.upstreamServers, domain) + [c.backend.address.value]]);
  }

  /** The host that the second loop builds from the maps' entries at key k. */
  function HostAt(t: Tables, settings: Settings, k: string, servers: seq<string>): Host {
    Host(
      Entry(t.serverNames, k),
      settings.port,
      if k in t.hostContextRoots then Some(t.hostContextRoots[k]) else None,
      Lookup(t.hostContextRootRewrites, k, false),
      settings.sslPort,
      Lookup(t.hostSSL, k, false),
      Lookup(t.hostSSLCert, k, ""),
      Lookup(t.hostSSLCertKey, k, ""),
      Lookup(t.hostSSLOnly, k, false),
      Lookup(t.hostSSLBackend, k, false),
      Upstream(k, servers),
      Entry(t.hostWebsocketEndpoints, k),
      Lookup(t.hostIPHash, k, false))
  }

  lemma {:induction false} HostAtIsHostFor(t: Tables, settings: Settings, cs: seq<Info>, k: string)
    requires Agrees(t, settings, cs) && k in t.upstreamServers
    ensures IsHost(cs, settings, HostAt(t, settings, k, t.upstreamServers[k]))
  {
    assert AppendsAt(t.upstreamServers, cs, HasAddress, Addresses, k);
    SingletonConcat(Accepted(cs, k));
    FilterOfEmpty(Group(cs, k), HasAddress);
    FilterAlways(Group(cs, k));
    assert NameTableAt(t.serverNames, cs, k);
    assert RootTableAt(t.hostContextRoots, cs, HasAddress, k);
    assert LastWinsAt(t.hostContextRootRewrites, cs, Always, Rewrite, k);
    assert LastWinsAt(t.hostSSL, cs, Always, Ssl, k);
    assert LastWinsAt(t.hostSSLCert, cs, HasCert, CertOf(settings), k);
    assert LastWinsAt(t.hostSSLCertKey, cs, HasCertKey, KeyOf(settings), k);
    assert LastWinsAt(t.hostSSLOnly, cs, Always, SslOnly, k);
    assert LastWinsAt(t.hostSSLBackend, cs, Always, SslBackend, k);
    assert AppendsAt(t.hostWebsocketEndpoints, cs, HasAddress, Endpoints, k);
    assert LastWinsAt(t.hostIPHash, cs, Always, IpHash, k);
  }

  method BuildServers(addresses: seq<string>) returns (servers: seq<string>)
    ensures servers == addresses
  {
    servers := [];
    for j := 0 to |addresses|
      invariant servers == addresses[..j]
    {
      servers := servers + [addresses[j]];
    }
  }

  /** The second loop: one host for each key of upstreamServers, in the map's iteration order. */
  method BuildHosts(t: Tables, settings: Settings, ghost cs: seq<Info>) returns (hosts: seq<Host>)
    requires Agrees(t, settings, cs)
    ensures HostsOf(cs, settings, hosts)
  {
    hosts := [];
    var keys := t.upstreamServers.Keys;
    while keys != {}
      invariant keys <= t.upstreamServers.Keys
      invariant Distinct(Names(hosts))
      invariant forall k :: k in Names(hosts) <==> k in t.upstreamServers.Keys - keys
      invariant forall h :: h in hosts ==> IsHost(cs, settings, h)
    {
      var k :| k in keys;
      keys := keys - {k};
      var servers := BuildServers(t.upstreamServers[k]);
      var h := HostAt(t, settings, k, servers);
      HostAtIsHostFor(t, settings, cs, k);
      NamesStep(hosts, h);
      hosts := hosts + [h];
    }
    UpstreamKeys(t.upstreamServers, cs);
  }

  ghost predicate HasHost(hosts: seq<Host>, k: string) {
    exists h :: h in hosts && h.upstream.name == k
  }

  /** Some inspected container of key k is routed and gets an address. */
  ghost predicate Deserves(containers: seq<Inspection>, k: string) {
    exists c :: Available(c) in containers && (c.domain != "" || c.contextRoot != "")
                && c.backend.address.Some? && IsKey(c, k)
  }

  ghost predicate NamedByLabels(containers: seq<Inspection>, hosts: seq<Host>) {
    forall k :: HasHost(hosts, k) <==> Deserves(containers, k)
  }

  lemma {:induction false} HostsNamed(containers: seq<Inspection>, settings: Settings, hosts: seq<Host>)
    requires HostsOf(Routed(containers), settings, hosts)
    ensures NamedByLabels(containers, hosts)
  {
    var cs := Routed(containers);
    forall k ensures HasHost(hosts, k) <==> Deserves(containers, k) {
      NameIndex(hosts, k);
      AcceptedByLabels(cs, k);
      RoutedMembers(containers);
    }
  }

  lemma {:induction false} AcceptedByLabels(cs: seq<Info>, k: string)
    ensures Accepted(cs, k) != [] <==> exists c :: c in cs && c.backend.address.Some? && IsKey(c, k)
  {
    GroupMembers(cs, k);
    forall c ensures c in Accepted(cs, k) <==> c in cs && c.backend.address.Some? && IsKey(c, k) {
      FilterMembers(Group(cs, k), HasAddress, c);
      KeyExactly(c, k);
    }
    if Accepted(cs, k) != [] {
      assert Accepted(cs, k)[0] in Accepted(cs, k);
    }
  }

  lemma {:induction false} NameIndex(hosts: seq<Host>, k: string)
    ensures k in Names(hosts) <==> HasHost(hosts, k)
  {
    if k in Names(hosts) {
      var i :| 0 <= i < |hosts| && Names(hosts)[i] == k;
      assert hosts[i] in hosts;
    }
    if h :| h in hosts && h.upstream.name == k {
      var i :| 0 <= i < |hosts| && hosts[i] == h;
      assert Names(hosts)[i] == k;
    }
  }

  method GenerateProxyConfig(containers: seq<Inspection>, settings: Settings) returns (config: Config)
    ensures NamedByLabels(containers, config.hosts)
    ensures HostsOf(Routed(containers), settings, config.hosts)
    ensures NetworkTable(config.networks, Routed(containers), HasAddress)
  {
    var t := Tables(map[], map[], map[], map[], map[], map[], map[], map[], map[], map[], map[], map[]);
    ghost var cs: seq<Info> := [];
    for i := 0 to |containers|
      invariant cs == Routed(containers[..i])
      invariant Agrees(t, settings, cs)
    {
      RoutedStep(containers, i);
      if containers[i].Unavailable? {
        continue;
      }
      if !Routable(containers[i].info) {
        continue;
      }
      t := Record(t, settings, cs, containers[i].info);
      cs := cs + [containers[i].info];
    }
    assert containers[..|containers|] == containers;
    var hosts := BuildHosts(t, settings, cs);
    HostsNamed(containers, settings, hosts);
    config := Config(hosts, t.networks);
  }
}
