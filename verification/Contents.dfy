/** What the emitted files hold for each host: its servers in order, and the values of its lines. */
module Contents {
  import opened Wrappers
  import opened Text
  import opened Lists
  import Nginx
  import HAProxy
  import N = NginxTemplate
  import P = HAProxyTemplate

  // ---- nginx ----

  /** The addresses of the server lines. */
  function AddressesIn(tokens: seq<N.Token>): seq<string> {
    if tokens == [] then
      []
    else
      var t := Last(tokens);
      AddressesIn(tokens[..|tokens| - 1]) + if t.Directive? && t.name == N.ServerAddr then [t.value] else []
  }

  lemma {:induction false} ServerAddresses(servers: seq<string>)
    ensures AddressesIn(Concat(servers, N.ServerLine)) == servers
  {
    if servers != [] {
      ServerAddresses(servers[..|servers| - 1]);
      OneMoreAddress(Concat(servers[..|servers| - 1], N.ServerLine), Last(servers));
    }
  }

  lemma {:induction false} ServerLinesOnly(servers: seq<string>)
    ensures forall t :: t in Concat(servers, N.ServerLine) ==> t.Directive?
  {
    if servers != [] {
      ServerLinesOnly(servers[..|servers| - 1]);
    }
  }

  lemma {:induction false} OneMoreAddress(tokens: seq<N.Token>, addr: string)
    ensures AddressesIn(tokens + [N.Directive(N.ServerAddr, addr)]) == AddressesIn(tokens) + [addr]
  {
    assert (tokens + [N.Directive(N.ServerAddr, addr)])[..|tokens|] == tokens;
  }

  lemma {:induction false} FirstLine(first: N.Token, rest: seq<N.Token>)
    requires !(first.Directive? && first.name == N.ServerAddr)
    ensures AddressesIn([first] + rest) == AddressesIn(rest)
  {
    if rest == [] {
      assert ([first] + rest)[..0] == [];
    } else {
      assert ([first] + rest)[..|rest|] == [first] + rest[..|rest| - 1];
      FirstLine(first, rest[..|rest| - 1]);
    }
  }

  lemma {:induction false} UpstreamAddresses(h: Nginx.Host, first: N.Token)
    requires !(first.Directive? && first.name == N.ServerAddr) && !first.Open? && !first.Close?
    ensures AddressesIn(N.UpstreamLines(h, first)) == h.upstream.servers
    ensures forall t :: t in N.UpstreamLines(h, first) ==> !t.Open? && !t.Close?
  {
    ServerAddresses(h.upstream.servers);
    ServerLinesOnly(h.upstream.servers);
    FirstLine(first, Concat(h.upstream.servers, N.ServerLine));
  }

  /** A line that a server block of host h may have: its values are those of the host. */
  predicate Fits(t: N.Token, h: Nginx.Host, port: int) {
    match t
    case Directive(name, value) =>
      (match name
       case Listen => value == Decimal(port)
       case ServerNames => value == Join(h.serverNames, ' ')
       case SslCertificate => value == h.sslCert
       case SslCertificateKey => value == h.sslCertKey
       case _ => false)
    case ProxyPass(https, target) => https == h.sslBackend && target == h.upstream.name
    case _ => true
  }

  ghost predicate AllFit(tokens: seq<N.Token>, h: Nginx.Host, port: int) {
    forall t :: t in tokens ==> Fits(t, h, port)
  }

  lemma {:induction false} FitAppend(a: seq<N.Token>, b: seq<N.Token>, h: Nginx.Host, port: int)
    requires AllFit(a, h, port) && AllFit(b, h, port)
    ensures AllFit(a + b, h, port)
  {
  }

  lemma {:induction false} FitBlock(kind: N.BlockKind, arg: string, body: seq<N.Token>, h: Nginx.Host, port: int)
    requires AllFit(body, h, port)
    ensures AllFit(N.Block(kind, arg, body), h, port) && forall t :: t in body ==> t in N.Block(kind, arg, body)
  {
  }

  lemma {:induction false} WebsocketsFit(h: Nginx.Host, endpoints: seq<string>, port: int)
    ensures AllFit(N.Websockets(h, endpoints), h, port)
  {
    if endpoints != [] {
      var ws := Last(endpoints);
      var body := [N.Pass(h), N.Fixed(N.ProxyHttp11), N.Fixed(N.UpgradeHeader), N.Fixed(N.ConnectionHeader)];
      WebsocketsFit(h, endpoints[..|endpoints| - 1], port);
      FitBlock(N.LocationBlock, ws, body, h, port);
      FitBlock(N.LocationBlock, "/nginx_status", [N.Fixed(N.StubStatus), N.Fixed(N.AccessLogOff)], h, port);
      FitAppend(N.Block(N.LocationBlock, ws, body), N.StatusLocation(), h, port);
      FitAppend(N.Websockets(h, endpoints[..|endpoints| - 1]), N.Websocket(h, ws), h, port);
    }
  }

  lemma {:induction false} RoutesFit(h: Nginx.Host, port: int)
    ensures AllFit(N.Routes(h), h, port) && N.ProxyPass(h.sslBackend, h.upstream.name) in N.Routes(h)
  {
    var pass := N.ProxyPass(h.sslBackend, h.upstream.name);
    WebsocketsFit(h, h.websocketEndpoints, port);
    FitBlock(N.LocationBlock, "/", [pass], h, port);
    FitAppend(N.RootLocation(h), N.Websockets(h, h.websocketEndpoints), h, port);
    assert pass in [pass];
  }

  lemma {:induction false} ServerFits(lines: seq<N.Token>, body: seq<N.Token>, h: Nginx.Host, port: int)
    requires AllFit(lines, h, port) && AllFit(body, h, port)
    ensures AllFit(N.Block(N.ServerBlock, "", lines + body), h, port)
    ensures forall t :: t in lines || t in body ==> t in N.Block(N.ServerBlock, "", lines + body)
  {
    FitAppend(lines, body, h, port);
    FitBlock(N.ServerBlock, "", lines + body, h, port);
  }

  /** The plain server has the host's port and names. It passes to the host's upstream, over TLS
      exactly for an SSL backend, unless it redirects because the host is SSL-only. */
  lemma {:induction false} PlainServerHolds(h: Nginx.Host)
    ensures AllFit(N.PlainServer(h), h, h.port)
    ensures N.Directive(N.Listen, Decimal(h.port)) in N.PlainServer(h)
    ensures N.Directive(N.ServerNames, Join(h.serverNames, ' ')) in N.PlainServer(h)
    ensures N.ProxyPass(h.sslBackend, h.upstream.name) in N.PlainServer(h) <==> !h.sslOnly
    ensures h.sslOnly ==> N.Fixed(N.ReturnHttps) in N.PlainServer(h)
  {
    var lines := [N.Directive(N.Listen, Decimal(h.port)), N.ServerName(h)];
    RoutesFit(h, h.port);
    assert lines[0] in lines && lines[1] in lines;
    if h.sslOnly {
      assert N.Fixed(N.ReturnHttps) in [N.Fixed(N.ReturnHttps)];
    }
    ServerFits(lines, if h.sslOnly then [N.Fixed(N.ReturnHttps)] else N.Routes(h), h, h.port);
  }

  /** The SSL server, which only SSL hosts have, has the SSL port, the host's names, certificate and
      key, and passes to the host's upstream. */
  lemma {:induction false} SslServerHolds(h: Nginx.Host)
    ensures N.SslServer(h) != [] <==> h.ssl
    ensures AllFit(N.SslServer(h), h, h.sslPort)
    ensures h.ssl ==>
            && N.Directive(N.Listen, Decimal(h.sslPort)) in N.SslServer(h)
            && N.Directive(N.ServerNames, Join(h.serverNames, ' ')) in N.SslServer(h)
            && N.Directive(N.SslCertificate, h.sslCert) in N.SslServer(h)
            && N.Directive(N.SslCertificateKey, h.sslCertKey) in N.SslServer(h)
            && N.ProxyPass(h.sslBackend, h.upstream.name) in N.SslServer(h)
  {
    var lines := [N.Directive(N.Listen, Decimal(h.sslPort)), N.Fixed(N.SslOn), N.Directive(N.SslCertificate, h.sslCert),
                  N.Directive(N.SslCertificateKey, h.sslCertKey), N.ServerName(h)];
    RoutesFit(h, h.sslPort);
    assert lines[0] in lines && lines[2] in lines && lines[3] in lines && lines[4] in lines;
    ServerFits(lines, N.Routes(h), h, h.sslPort);
  }

  /** The upstream block of a host starts with its zone, or with ip_hash for a plain host that asks
      for it, and lists its servers in order; no other line of the host is a server line. */
  lemma {:induction false} UpstreamHolds(h: Nginx.Host) returns (lines: seq<N.Token>, rest: seq<N.Token>)
    requires h.contextRoot.Some?
    ensures N.HostBlocks(h) == N.Block(N.UpstreamBlock, N.UpstreamName(h), lines) + rest
    ensures lines != []
            && lines[0] == if h.contextRoot.value.path != "" then N.Directive(N.Zone, "ctx" + h.upstream.name)
                           else if h.ipHash then N.Fixed(N.IpHashLine)
                           else N.Directive(N.Zone, h.upstream.name)
    ensures AddressesIn(lines) == h.upstream.servers && forall t :: t in lines ==> !t.Open? && !t.Close?
    ensures forall t :: t in rest ==> !(t.Directive? && t.name == N.ServerAddr)
  {
    var first := if N.HasContext(h) then N.Directive(N.Zone, "ctx" + h.upstream.name)
                 else if h.ipHash then N.Fixed(N.IpHashLine)
                 else N.Directive(N.Zone, h.upstream.name);
    lines := N.UpstreamLines(h, first);
    UpstreamAddresses(h, first);
    if N.HasContext(h) {
      rest := [];
      assert N.HostBlocks(h) + [] == N.HostBlocks(h);
    } else {
      rest := N.PlainServer(h) + N.SslServer(h);
      PlainServerHolds(h);
      SslServerHolds(h);
      FittingIsNoServer(N.PlainServer(h), h, h.port);
      FittingIsNoServer(N.SslServer(h), h, h.sslPort);
    }
  }

  lemma {:induction false} FittingIsNoServer(tokens: seq<N.Token>, h: Nginx.Host, port: int)
    requires AllFit(tokens, h, port)
    ensures forall t :: t in tokens ==> !(t.Directive? && t.name == N.ServerAddr)
  {
  }

  /** The default server has a location for each context path, and none for other hosts: it passes
      to the context's upstream and rewrites the path exactly when the host asks for it. */
  lemma {:induction false} ContextHolds(h: Nginx.Host)
    requires h.contextRoot.Some?
    ensures var root, location := h.contextRoot.value, N.ContextLocation(h);
            && (root.path == "" ==> location == [])
            && (root.path != "" ==>
                  && location[0] == N.Open(N.LocationBlock, root.path)
                  && (forall t :: t in location && t.ProxyPass? <==> t == N.ProxyPass(false, "ctx" + root.name))
                  && (N.Directive(N.RewritePath, root.path) in location <==> h.contextRootRewrite))
  {
    var root, location := h.contextRoot.value, N.ContextLocation(h);
    var pass := N.ProxyPass(false, "ctx" + root.name);
    if root.path != "" && h.contextRootRewrite {
      assert location == [N.Open(N.LocationBlock, root.path), N.Fixed(N.RewriteSlash),
                          N.Directive(N.RewritePath, root.path), pass, N.Close];
    } else if root.path != "" {
      assert location == [N.Open(N.LocationBlock, root.path), pass, N.Close];
    }
  }

  // ---- HAProxy ----

  function ServersIn(lines: seq<P.Line>): seq<P.Line> {
    if lines == [] then [] else ServersIn(lines[..|lines| - 1]) + if Last(lines).ServerLine? then [Last(lines)] else []
  }

  function OptionsIn(lines: seq<P.Line>): seq<string> {
    if lines == [] then
      []
    else
      OptionsIn(lines[..|lines| - 1]) + if Last(lines).OptionLine? then [Last(lines).name] else []
  }

  lemma {:induction false} LinesAppend(a: seq<P.Line>, b: seq<P.Line>)
    ensures ServersIn(a + b) == ServersIn(a) + ServersIn(b)
    ensures OptionsIn(a + b) == OptionsIn(a) + OptionsIn(b)
  {
    if b == [] {
      assert a + b == a;
    } else {
      assert (a + b)[..|a + b| - 1] == a + b[..|b| - 1];
      LinesAppend(a, b[..|b| - 1]);
    }
  }

  lemma {:induction false} AllServers(lines: seq<P.Line>)
    requires forall i :: 0 <= i < |lines| ==> lines[i].ServerLine?
    ensures ServersIn(lines) == lines && OptionsIn(lines) == []
  {
    if lines != [] {
      AllServers(lines[..|lines| - 1]);
    }
  }

  lemma {:induction false} NoServers(lines: seq<P.Line>)
    requires forall i :: 0 <= i < |lines| ==> !lines[i].ServerLine?
    ensures ServersIn(lines) == []
  {
    if lines != [] {
      NoServers(lines[..|lines| - 1]);
    }
  }

  lemma {:induction false} NoOptions(lines: seq<P.Line>)
    requires forall i :: 0 <= i < |lines| ==> !lines[i].OptionLine?
    ensures OptionsIn(lines) == []
  {
    if lines != [] {
      NoOptions(lines[..|lines| - 1]);
    }
  }

  lemma {:induction false} AllOptions(options: seq<string>)
    ensures OptionsIn(P.Options(options)) == options && ServersIn(P.Options(options)) == []
  {
    NoServers(P.Options(options));
    if options != [] {
      AllOptions(options[..|options| - 1]);
      assert P.Options(options)[..|options| - 1] == P.Options(options[..|options| - 1]);
    }
  }

  /** The server lines of a backend section are the host's upstreams in order, checked by the TLS mode
      exactly for an SSL backend. */
  lemma {:induction false} SectionServers(h: HAProxy.Host)
    requires h.contextRoot.Some?
    ensures var lines := ServersIn(P.BackendLines(h));
            && |lines| == |h.upstreams|
            && forall i :: 0 <= i < |lines| ==>
                 lines[i] == P.ServerLine(h.upstreams[i], if h.sslBackend then Some(h.sslBackendTLSVerify) else None)
  {
    var head := [P.Backend(P.BackendName(h)), P.Balance(h.balanceAlgorithm)] + P.Options(h.backendOptions)
                + (if h.check != "" then [P.OptionLine(h.check)] else []) + (if h.sslOnly then [P.Redirect] else []);
    ServersLast(head, P.Servers(h));
    assert P.BackendLines(h) == head + P.Servers(h);
  }

  lemma {:induction false} ServersLast(head: seq<P.Line>, servers: seq<P.Line>)
    requires forall i :: 0 <= i < |head| ==> !head[i].ServerLine?
    requires forall i :: 0 <= i < |servers| ==> servers[i].ServerLine?
    ensures ServersIn(head + servers) == servers
  {
    NoServers(head);
    AllServers(servers);
    LinesAppend(head, servers);
  }

  /** Its options are the host's, and then the check. */
  lemma {:induction false} SectionOptions(h: HAProxy.Host)
    requires h.contextRoot.Some?
    ensures OptionsIn(P.BackendLines(h)) == h.backendOptions + if h.check != "" then [h.check] else []
  {
    CheckOption(h.check);
    AllOptions(h.backendOptions);
    OptionParts([P.Backend(P.BackendName(h)), P.Balance(h.balanceAlgorithm)], P.Options(h.backendOptions),
                if h.check != "" then [P.OptionLine(h.check)] else [], if h.sslOnly then [P.Redirect] else [],
                P.Servers(h));
  }

  /** Its balance line has the host's algorithm, and the redirect is there exactly for an SSL-only
      host. */
  lemma {:induction false} SectionSettings(h: HAProxy.Host)
    requires h.contextRoot.Some?
    ensures P.Redirect in P.BackendLines(h) <==> h.sslOnly
    ensures forall l :: l in P.BackendLines(h) && l.Balance? <==> l == P.Balance(h.balanceAlgorithm)
  {
    var head := [P.Backend(P.BackendName(h)), P.Balance(h.balanceAlgorithm)];
    var redirect := if h.sslOnly then [P.Redirect] else [];
    LineParts(head, P.Options(h.backendOptions), if h.check != "" then [P.OptionLine(h.check)] else [], redirect,
              P.Servers(h));
    assert P.Balance(h.balanceAlgorithm) in head;
    if h.sslOnly {
      assert P.Redirect in redirect;
    }
  }

  lemma {:induction false} CheckOption(check: string)
    ensures OptionsIn(if check != "" then [P.OptionLine(check)] else []) == if check != "" then [check] else []
  {
    if check != "" {
      assert [P.OptionLine(check)][..0] == [];
    }
  }

  lemma {:induction false} OptionParts(head: seq<P.Line>, options: seq<P.Line>, check: seq<P.Line>,
                                       redirect: seq<P.Line>, servers: seq<P.Line>)
    requires forall i :: 0 <= i < |head| ==> !head[i].OptionLine?
    requires forall i :: 0 <= i < |redirect| ==> !redirect[i].OptionLine?
    requires forall i :: 0 <= i < |servers| ==> !servers[i].OptionLine?
    ensures OptionsIn(head + options + check + redirect + servers) == OptionsIn(options) + OptionsIn(check)
  {
    NoOptions(head);
    NoOptions(redirect);
    NoOptions(servers);
    LinesAppend(head, options);
    LinesAppend(head + options, check);
    LinesAppend(head + options + check, redirect);
    LinesAppend(head + options + check + redirect, servers);
  }

  lemma {:induction false} LineParts(head: seq<P.Line>, options: seq<P.Line>, check: seq<P.Line>,
                                     redirect: seq<P.Line>, servers: seq<P.Line>)
    ensures forall l :: l in head + options + check + redirect + servers <==>
                        l in head || l in options || l in check || l in redirect || l in servers
  {
  }

  /** A host with a context root is picked by its path, another one by its domain. */
  lemma {:induction false} FrontendHolds(h: HAProxy.Host)
    requires h.contextRoot.Some?
    ensures var root := h.contextRoot.value;
            P.FrontendLines(h)
            == if root.path != "" then
                 [P.Acl("url" + root.name, P.PathBeg(root.path)), P.UseBackend("ctx" + root.name, "url" + root.name)]
               else
                 [P.Acl("is_" + h.name, P.HostBeg(h.domain)), P.UseBackend(h.name, "is_" + h.name)]
  {
  }

  /** The servers of the whole file are the upstreams of the hosts, section by section. */
  lemma {:induction false} FileServers(hosts: seq<HAProxy.Host>)
    requires P.Rooted(hosts)
    ensures ServersIn(P.Execute(hosts).value) == Concat(hosts, P.Servers)
  {
    FrontendServers(hosts);
    BackendServers(hosts);
    LinesAppend(P.Frontend(hosts), P.Backends(hosts));
  }

  lemma {:induction false} FrontendServers(hosts: seq<HAProxy.Host>)
    requires P.Rooted(hosts)
    ensures ServersIn(P.Frontend(hosts)) == []
  {
    if hosts != [] {
      var init := hosts[..|hosts| - 1];
      FrontendServers(init);
      NoServers(P.FrontendLines(Last(hosts)));
      LinesAppend(P.Frontend(init), P.FrontendLines(Last(hosts)));
    }
  }

  lemma {:induction false} BackendServers(hosts: seq<HAProxy.Host>)
    requires P.Rooted(hosts)
    ensures ServersIn(P.Backends(hosts)) == Concat(hosts, P.Servers)
  {
    if hosts != [] {
      var init, h := hosts[..|hosts| - 1], Last(hosts);
      BackendServers(init);
      SectionServers(h);
      assert ServersIn(P.BackendLines(h)) == P.Servers(h);
      LinesAppend(P.Backends(init), P.BackendLines(h));
    }
  }
}
