/** The host-dependent part of the nginx configuration template (ext/lb/nginx/template.go). */
module NginxTemplate {
  import opened Wrappers
  import opened Text
  import opened Lists
  import opened Containers
  import opened Nginx

  datatype BlockKind = EventsBlock | HttpBlock | MapBlock | ServerBlock | LocationBlock | UpstreamBlock

  /** The lines without substituted values. */
  datatype FixedLine =
    | DefaultName | Return503 | StubStatus | AccessLogOff | RewriteSlash | IpHashLine | ReturnHttps
    | ProxyHttp11 | UpgradeHeader | ConnectionHeader | SslOn

  /** The lines with one substituted value. */
  datatype ValueLine = Zone | ServerAddr | Listen | ServerNames | SslCertificate | SslCertificateKey | RewritePath

  /** The emitted statements. Open and Close are the two ends of a block. */
  datatype Token =
    | Open(kind: BlockKind, arg: string)
    | Close
    | Fixed(line: FixedLine)
    | Directive(name: ValueLine, value: string)
    | ProxyPass(https: bool, target: string)

  function Block(kind: BlockKind, arg: string, body: seq<Token>): seq<Token> {
    [Open(kind, arg)] + body + [Close]
  }

  function HasContext(h: Host): bool
    requires h.contextRoot.Some?
  {
    h.contextRoot.value.path != ""
  }

  function CtxName(h: Host): string
    requires h.contextRoot.Some?
  {
    "ctx" + h.contextRoot.value.name
  }

  // ---- The template ----

  function StatusLocation(): seq<Token> {
    Block(LocationBlock, "/nginx_status", [Fixed(StubStatus), Fixed(AccessLogOff)])
  }

  function ContextLocation(h: Host): seq<Token>
    requires h.contextRoot.Some?
  {
    var path := h.contextRoot.value.path;
    if !HasContext(h) then
      []
    else if h.contextRootRewrite then
      Block(LocationBlock, path, [Fixed(RewriteSlash), Directive(RewritePath, path), ProxyPass(false, CtxName(h))])
    else
      Block(LocationBlock, path, [ProxyPass(false, CtxName(h))])
  }

  function ServerLine(addr: string): seq<Token> {
    [Directive(ServerAddr, addr)]
  }

  function Pass(h: Host): Token {
    ProxyPass(h.sslBackend, h.upstream.name)
  }

  function RootLocation(h: Host): seq<Token> {
    Block(LocationBlock, "/", [Pass(h)])
  }

  function Websocket(h: Host, ws: string): seq<Token> {
    Block(LocationBlock, ws, [Pass(h), Fixed(ProxyHttp11), Fixed(UpgradeHeader), Fixed(ConnectionHeader)])
    + StatusLocation()
  }

  function Websockets(h: Host, endpoints: seq<string>): seq<Token> {
    if endpoints == [] then [] else Websockets(h, endpoints[..|endpoints| - 1]) + Websocket(h, Last(endpoints))
  }

  function ServerName(h: Host): Token {
    Directive(ServerNames, Join(h.serverNames, ' '))
  }

  function Routes(h: Host): seq<Token> {
    RootLocation(h) + Websockets(h, h.websocketEndpoints)
  }

  function PlainServer(h: Host): seq<Token> {
    Block(ServerBlock, "", [Directive(Listen, Decimal(h.port)), ServerName(h)]
                           + if h.sslOnly then [Fixed(ReturnHttps)] else Routes(h))
  }

  function SslServer(h: Host): seq<Token> {
    if !h.ssl then
      []
    else
      Block(ServerBlock, "", [Directive(Listen, Decimal(h.sslPort)), Fixed(SslOn),
                              Directive(SslCertificate, h.sslCert), Directive(SslCertificateKey, h.sslCertKey),
                              ServerName(h)] + Routes(h))
  }

  function UpstreamLines(h: Host, first: Token): seq<Token> {
    [first] + Concat(h.upstream.servers, ServerLine)
  }

  function HostBlocks(h: Host): seq<Token>
    requires h.contextRoot.Some?
  {
    if HasContext(h) then
      Block(UpstreamBlock, CtxName(h), UpstreamLines(h, Directive(Zone, "ctx" + h.upstream.name)))
    else
      Block(UpstreamBlock, h.upstream.name,
            UpstreamLines(h, if h.ipHash then Fixed(IpHashLine) else Directive(Zone, h.upstream.name)))
      + (PlainServer(h) + SslServer(h))
  }

  predicate Rooted(hosts: seq<Host>) {
    forall i :: 0 <= i < |hosts| ==> hosts[i].contextRoot.Some?
  }

  function ContextLocations(hosts: seq<Host>): seq<Token>
    requires Rooted(hosts)
  {
    if hosts == [] then [] else ContextLocations(hosts[..|hosts| - 1]) + ContextLocation(Last(hosts))
  }

  function AllHostBlocks(hosts: seq<Host>): seq<Token>
    requires Rooted(hosts)
  {
    if hosts == [] then [] else AllHostBlocks(hosts[..|hosts| - 1]) + HostBlocks(Last(hosts))
  }

  /** The blocks before the hosts. The http block and the default server stay open. */
  function Prelude(): seq<Token> {
    Block(EventsBlock, "", []) + [Open(HttpBlock, "")] + Block(MapBlock, "", []) + Block(MapBlock, "", [])
    + [Open(ServerBlock, "")] + DefaultServer()
  }

  function DefaultServer(): seq<Token> {
    [Fixed(DefaultName)] + Block(LocationBlock, "/", [Fixed(Return503)])
  }

  function Render(hosts: seq<Host>): seq<Token>
    requires Rooted(hosts)
  {
    Prelude() + (ContextLocations(hosts) + (StatusLocation() + [Close] + (AllHostBlocks(hosts) + [Close])))
  }

  /** Executing the template fails on a nil context root. */
  function Execute(hosts: seq<Host>): Result<seq<Token>, string> {
    if Rooted(hosts) then Success(Render(hosts)) else Failure("nil pointer evaluating ContextRoot")
  }

  // ---- References ----

  function Declared(tokens: seq<Token>): seq<string> {
    if tokens == [] then
      []
    else
      var t := Last(tokens);
      Declared(tokens[..|tokens| - 1]) + if t.Open? && t.kind.UpstreamBlock? then [t.arg] else []
  }

  /** Every proxy_pass goes to one of the names. */
  ghost predicate PassesInto(tokens: seq<Token>, names: seq<string>) {
    forall t :: t in tokens && t.ProxyPass? ==> t.target in names
  }

  /** The upstream that a host declares. */
  function UpstreamName(h: Host): string
    requires h.contextRoot.Some?
  {
    if HasContext(h) then CtxName(h) else h.upstream.name
  }

  function UpstreamNames(hosts: seq<Host>): (names: seq<string>)
    requires Rooted(hosts)
    ensures |names| == |hosts| && forall i :: 0 <= i < |hosts| ==> names[i] == UpstreamName(hosts[i])
  {
    seq(|hosts|, i requires 0 <= i < |hosts| => UpstreamName(hosts[i]))
  }

  lemma {:induction false} DeclaredAppend(a: seq<Token>, b: seq<Token>)
    ensures Declared(a + b) == Declared(a) + Declared(b)
  {
    if b == [] {
      assert a + b == a;
    } else {
      assert (a + b)[..|a + b| - 1] == a + b[..|b| - 1];
      DeclaredAppend(a, b[..|b| - 1]);
    }
  }

  lemma {:induction false} PassesAppend(a: seq<Token>, b: seq<Token>, names: seq<string>)
    requires PassesInto(a, names) && PassesInto(b, names)
    ensures PassesInto(a + b, names)
  {
  }

  /** A statement inside a block of host name: it declares no upstream and passes only to name. */
  predicate Local(t: Token, name: string) {
    && (t.Open? ==> !t.kind.UpstreamBlock?)
    && (t.ProxyPass? ==> t.target == name)
  }

  ghost predicate AllLocal(tokens: seq<Token>, name: string) {
    forall t :: t in tokens ==> Local(t, name)
  }

  lemma {:induction false} LocalAppend(a: seq<Token>, b: seq<Token>, name: string)
    requires AllLocal(a, name) && AllLocal(b, name)
    ensures AllLocal(a + b, name)
  {
  }

  lemma {:induction false} LocalMeaning(tokens: seq<Token>, name: string, names: seq<string>)
    requires AllLocal(tokens, name)
    ensures Declared(tokens) == []
    ensures name in names ==> PassesInto(tokens, names)
  {
    if tokens != [] {
      assert Last(tokens) in tokens;
      LocalMeaning(tokens[..|tokens| - 1], name, names);
    }
  }

  lemma {:induction false} ServerLinesLocal(servers: seq<string>, name: string)
    ensures AllLocal(Concat(servers, ServerLine), name)
  {
    if servers != [] {
      ServerLinesLocal(servers[..|servers| - 1], name);
      LocalAppend(Concat(servers[..|servers| - 1], ServerLine), ServerLine(Last(servers)), name);
    }
  }

  lemma {:induction false} BlockLocal(kind: BlockKind, arg: string, body: seq<Token>, name: string)
    requires !kind.UpstreamBlock? && AllLocal(body, name)
    ensures AllLocal(Block(kind, arg, body), name)
  {
  }

  lemma {:induction false} StatusLocal(name: string)
    ensures AllLocal(StatusLocation(), name)
  {
    BlockLocal(LocationBlock, "/nginx_status", [Fixed(StubStatus), Fixed(AccessLogOff)], name);
  }

  lemma {:induction false} WebsocketsLocal(h: Host, endpoints: seq<string>)
    ensures AllLocal(Websockets(h, endpoints), h.upstream.name)
  {
    if endpoints != [] {
      var ws, name := Last(endpoints), h.upstream.name;
      var body := [Pass(h), Fixed(ProxyHttp11), Fixed(UpgradeHeader), Fixed(ConnectionHeader)];
      WebsocketsLocal(h, endpoints[..|endpoints| - 1]);
      BlockLocal(LocationBlock, ws, body, name);
      StatusLocal(name);
      LocalAppend(Block(LocationBlock, ws, body), StatusLocation(), name);
      LocalAppend(Websockets(h, endpoints[..|endpoints| - 1]), Websocket(h, ws), name);
    }
  }

  lemma {:induction false} RoutesLocal(h: Host)
    ensures AllLocal(Routes(h), h.upstream.name)
  {
    WebsocketsLocal(h, h.websocketEndpoints);
    BlockLocal(LocationBlock, "/", [Pass(h)], h.upstream.name);
    LocalAppend(RootLocation(h), Websockets(h, h.websocketEndpoints), h.upstream.name);
  }

  lemma {:induction false} ServerLocal(lines: seq<Token>, body: seq<Token>, name: string)
    requires AllLocal(lines, name) && AllLocal(body, name)
    ensures AllLocal(Block(ServerBlock, "", lines + body), name)
  {
    LocalAppend(lines, body, name);
    BlockLocal(ServerBlock, "", lines + body, name);
  }

  lemma {:induction false} ServersLocal(h: Host)
    ensures AllLocal(PlainServer(h) + SslServer(h), h.upstream.name)
  {
    var name := h.upstream.name;
    var plain := [Directive(Listen, Decimal(h.port)), ServerName(h)];
    var ssl := [Directive(Listen, Decimal(h.sslPort)), Fixed(SslOn), Directive(SslCertificate, h.sslCert),
                Directive(SslCertificateKey, h.sslCertKey), ServerName(h)];
    RoutesLocal(h);
    ServerLocal(plain, if h.sslOnly then [Fixed(ReturnHttps)] else Routes(h), name);
    ServerLocal(ssl, Routes(h), name);
    LocalAppend(PlainServer(h), SslServer(h), name);
  }

  /** An upstream block declares its name, whatever local statements follow it. */
  lemma {:induction false} OneUpstream(name: string, lines: seq<Token>, rest: seq<Token>, names: seq<string>)
    requires AllLocal(lines, name) && AllLocal(rest, name) && name in names
    ensures Declared(Block(UpstreamBlock, name, lines) + rest) == [name]
    ensures PassesInto(Block(UpstreamBlock, name, lines) + rest, names)
  {
    var open, others := [Open(UpstreamBlock, name)], lines + [Close] + rest;
    LocalAppend(lines, [Close], name);
    LocalAppend(lines + [Close], rest, name);
    Opening(open, others, name, names);
    BlockThen(UpstreamBlock, name, lines, rest);
  }

  lemma {:induction false} BlockThen(kind: BlockKind, arg: string, body: seq<Token>, rest: seq<Token>)
    ensures Block(kind, arg, body) + rest == [Open(kind, arg)] + (body + [Close] + rest)
  {
  }

  lemma {:induction false} Opening(open: seq<Token>, others: seq<Token>, name: string, names: seq<string>)
    requires open == [Open(UpstreamBlock, name)] && AllLocal(others, name) && name in names
    ensures Declared(open + others) == [name] && PassesInto(open + others, names)
  {
    LocalMeaning(others, name, names);
    assert open[..0] == [];
    DeclaredAppend(open, others);
    PassesAppend(open, others, names);
  }

  lemma {:induction false} UpstreamLinesLocal(h: Host, first: Token, name: string)
    requires Local(first, name)
    ensures AllLocal(UpstreamLines(h, first), name)
  {
    ServerLinesLocal(h.upstream.servers, name);
    LocalAppend([first], Concat(h.upstream.servers, ServerLine), name);
  }

  /** A host declares one upstream and passes to no other. */
  lemma {:induction false} HostReferences(h: Host, names: seq<string>)
    requires h.contextRoot.Some? && UpstreamName(h) in names
    ensures Declared(HostBlocks(h)) == [UpstreamName(h)] && PassesInto(HostBlocks(h), names)
  {
    if HasContext(h) {
      var zone := Directive(Zone, "ctx" + h.upstream.name);
      UpstreamLinesLocal(h, zone, CtxName(h));
      OneUpstream(CtxName(h), UpstreamLines(h, zone), [], names);
      assert HostBlocks(h) + [] == HostBlocks(h);
    } else {
      var name := h.upstream.name;
      var first := if h.ipHash then Fixed(IpHashLine) else Directive(Zone, name);
      UpstreamLinesLocal(h, first, name);
      ServersLocal(h);
      OneUpstream(name, UpstreamLines(h, first), PlainServer(h) + SslServer(h), names);
    }
  }

  lemma {:induction false} AllHostReferences(hosts: seq<Host>, names: seq<string>)
    requires Rooted(hosts) && forall n :: n in UpstreamNames(hosts) ==> n in names
    ensures Declared(AllHostBlocks(hosts)) == UpstreamNames(hosts) && PassesInto(AllHostBlocks(hosts), names)
  {
    if hosts != [] {
      var init, h := hosts[..|hosts| - 1], Last(hosts);
      assert UpstreamNames(hosts) == UpstreamNames(init) + [UpstreamName(h)];
      AllHostReferences(init, names);
      HostReferences(h, names);
      DeclaredAppend(AllHostBlocks(init), HostBlocks(h));
      PassesAppend(AllHostBlocks(init), HostBlocks(h), names);
    }
  }

  lemma {:induction false} ContextLocal(h: Host)
    requires h.contextRoot.Some?
    ensures AllLocal(ContextLocation(h), UpstreamName(h))
  {
    if HasContext(h) {
      var path, pass := h.contextRoot.value.path, ProxyPass(false, CtxName(h));
      BlockLocal(LocationBlock, path, [Fixed(RewriteSlash), Directive(RewritePath, path), pass], CtxName(h));
      BlockLocal(LocationBlock, path, [pass], CtxName(h));
    }
  }

  lemma {:induction false} ContextReferences(hosts: seq<Host>, names: seq<string>)
    requires Rooted(hosts) && forall n :: n in UpstreamNames(hosts) ==> n in names
    ensures Declared(ContextLocations(hosts)) == [] && PassesInto(ContextLocations(hosts), names)
  {
    if hosts != [] {
      var init, h := hosts[..|hosts| - 1], Last(hosts);
      assert UpstreamNames(hosts) == UpstreamNames(init) + [UpstreamName(h)];
      ContextReferences(init, names);
      ContextLocal(h);
      LocalMeaning(ContextLocation(h), UpstreamName(h), names);
      DeclaredAppend(ContextLocations(init), ContextLocation(h));
      PassesAppend(ContextLocations(init), ContextLocation(h), names);
    }
  }

  lemma {:induction false} FixedLocal(name: string)
    ensures AllLocal(Prelude(), name) && AllLocal(StatusLocation() + [Close], name)
  {
    BlockLocal(EventsBlock, "", [], name);
    BlockLocal(MapBlock, "", [], name);
    BlockLocal(LocationBlock, "/", [Fixed(Return503)], name);
    LocalAppend([Fixed(DefaultName)], Block(LocationBlock, "/", [Fixed(Return503)]), name);
    PreludeLocal(Block(EventsBlock, "", []), Block(MapBlock, "", []), DefaultServer(), name);
    StatusLocal(name);
    LocalAppend(StatusLocation(), [Close], name);
  }

  /** Statements that are local to two names pass nowhere. */
  lemma {:induction false} PassesNowhere(tokens: seq<Token>, names: seq<string>)
    requires AllLocal(tokens, "") && AllLocal(tokens, "_")
    ensures Declared(tokens) == [] && PassesInto(tokens, names)
  {
    LocalMeaning(tokens, "", names);
  }

  lemma {:induction false} PreludeLocal(events: seq<Token>, maps: seq<Token>, server: seq<Token>, name: string)
    requires AllLocal(events, name) && AllLocal(maps, name) && AllLocal(server, name)
    ensures AllLocal(events + [Open(HttpBlock, "")] + maps + maps + [Open(ServerBlock, "")] + server, name)
  {
  }

  lemma {:induction false} QuietBefore(a: seq<Token>, b: seq<Token>, names: seq<string>)
    requires Declared(a) == [] && PassesInto(a, names) && PassesInto(b, names)
    ensures Declared(a + b) == Declared(b) && PassesInto(a + b, names)
  {
    DeclaredAppend(a, b);
    PassesAppend(a, b, names);
  }

  lemma {:induction false} QuietAfter(a: seq<Token>, b: seq<Token>, names: seq<string>)
    requires Declared(b) == [] && PassesInto(a, names) && PassesInto(b, names)
    ensures Declared(a + b) == Declared(a) && PassesInto(a + b, names)
  {
    DeclaredAppend(a, b);
    PassesAppend(a, b, names);
  }

  lemma {:induction false} Assembled(prelude: seq<Token>, contexts: seq<Token>, status: seq<Token>,
                                     blocks: seq<Token>, end: seq<Token>, names: seq<string>)
    requires Declared(prelude) == Declared(contexts) == Declared(status) == Declared(end) == []
    requires PassesInto(prelude, names) && PassesInto(contexts, names) && PassesInto(status, names)
    requires PassesInto(blocks, names) && PassesInto(end, names)
    ensures var all := prelude + (contexts + (status + (blocks + end)));
            Declared(all) == Declared(blocks) && PassesInto(all, names)
  {
    QuietAfter(blocks, end, names);
    QuietBefore(status, blocks + end, names);
    QuietBefore(contexts, status + (blocks + end), names);
    QuietBefore(prelude, contexts + (status + (blocks + end)), names);
  }

  /** Every proxy_pass target is declared, for every host list; each host declares one upstream. */
  lemma {:induction false} LinksResolve(hosts: seq<Host>)
    requires Rooted(hosts)
    ensures Declared(Render(hosts)) == UpstreamNames(hosts)
    ensures PassesInto(Render(hosts), Declared(Render(hosts)))
  {
    var names := UpstreamNames(hosts);
    ContextReferences(hosts, names);
    AllHostReferences(hosts, names);
    FixedLocal("");
    FixedLocal("_");
    PassesNowhere(Prelude(), names);
    PassesNowhere(StatusLocation() + [Close], names);
    PassesNowhere([Close], names);
    Assembled(Prelude(), ContextLocations(hosts), StatusLocation() + [Close], AllHostBlocks(hosts), [Close], names);
  }

  // ---- The generator's hosts ----

  /** The upstream name of domain k, by its last context root. */
  function UpstreamOf(cs: seq<Info>, k: string): string {
    var root := FinalRoot(cs, HasAddress, k);
    if root.path != "" then "ctx" + root.name else k
  }

  lemma {:induction false} EmittedRoot(cs: seq<Info>, settings: Settings, hosts: seq<Host>, i: nat)
    requires HostsOf(cs, settings, hosts) && i < |hosts|
    ensures hosts[i].contextRoot.Some?
    ensures hosts[i].contextRoot.value.name == Replace(hosts[i].contextRoot.value.path, '/', '_')
  {
    assert Names(hosts)[i] == hosts[i].upstream.name && hosts[i] in hosts;
    GroupBelongsToRootWriters(cs, HasAddress, hosts[i].upstream.name);
  }

  lemma {:induction false} EmittedUpstream(cs: seq<Info>, settings: Settings, hosts: seq<Host>, i: nat)
    requires HostsOf(cs, settings, hosts) && i < |hosts|
    ensures hosts[i].contextRoot.Some? && UpstreamName(hosts[i]) == UpstreamOf(cs, Names(hosts)[i])
  {
    var k := hosts[i].upstream.name;
    assert Names(hosts)[i] == k && hosts[i] in hosts;
    GroupBelongsToRootWriters(cs, HasAddress, k);
  }

  /** Two domains end up with one upstream name: their last context roots have the same name, or
      the plain one is named like the upstream of the other's context root. */
  predicate Clash(cs: seq<Info>, k: string, l: string) {
    var a, b := FinalRoot(cs, HasAddress, k), FinalRoot(cs, HasAddress, l);
    a.path != "" && (if b.path != "" then a.name == b.name else l == "ctx" + a.name)
  }

  lemma {:induction false} ClashMeaning(cs: seq<Info>, k: string, l: string)
    requires k != l
    ensures UpstreamOf(cs, k) == UpstreamOf(cs, l) <==> Clash(cs, k, l) || Clash(cs, l, k)
  {
    Cancel("ctx", FinalRoot(cs, HasAddress, k).name, FinalRoot(cs, HasAddress, l).name);
  }

  /** For all labels: the upstreams are declared once each exactly when no two domains with an
      accepted container clash. */
  lemma {:induction false} DeclaredOnceExactly(cs: seq<Info>, settings: Settings, hosts: seq<Host>)
    requires HostsOf(cs, settings, hosts)
    ensures Rooted(hosts)
    ensures Distinct(Declared(Render(hosts))) <==>
            forall k, l :: k != l && Accepted(cs, k) != [] && Accepted(cs, l) != [] ==> !Clash(cs, k, l)
  {
    var keys := Names(hosts);
    forall i | 0 <= i < |hosts|
      ensures hosts[i].contextRoot.Some? && UpstreamName(hosts[i]) == UpstreamOf(cs, keys[i])
    {
      EmittedUpstream(cs, settings, hosts, i);
    }
    LinksResolve(hosts);
    forall i, j | 0 <= i < |keys| && 0 <= j < |keys| && i != j
      ensures UpstreamNames(hosts)[i] == UpstreamNames(hosts)[j] <==>
              Clash(cs, keys[i], keys[j]) || Clash(cs, keys[j], keys[i])
    {
      ClashMeaning(cs, keys[i], keys[j]);
    }
    DistinctImages(keys, UpstreamNames(hosts), (k, l) => Clash(cs, k, l));
  }

  /** No accepted container has the effective domain of an accepted container as an alias. */
  ghost predicate NoAliasIsDomain(cs: seq<Info>) {
    forall c, d :: c in cs && d in cs && HasAddress(c) && HasAddress(d) ==> EffectiveDomain(d) !in c.aliasDomains
  }

  lemma {:induction false} RootWritersAreGroup(cs: seq<Info>, k: string)
    requires forall c :: c in cs && HasAddress(c) ==> k !in c.aliasDomains
    ensures RootWriters(cs, HasAddress, k) == Group(cs, k)
  {
    if cs != [] {
      assert Last(cs) in cs;
      RootWritersAreGroup(cs[..|cs| - 1], k);
    }
  }

  /** A host with a context path is keyed by its context name. */
  lemma {:induction false} ContextKey(cs: seq<Info>, settings: Settings, hosts: seq<Host>, h: Host)
    requires HostsOf(cs, settings, hosts) && NoAliasIsDomain(cs) && h in hosts
    ensures h.contextRoot.Some?
    ensures HasContext(h) ==> h.contextRoot.value.name == h.upstream.name
    ensures UpstreamName(h) == if HasContext(h) then "ctx" + h.upstream.name else h.upstream.name
  {
    var k := h.upstream.name;
    var i :| 0 <= i < |hosts| && hosts[i] == h;
    assert Names(hosts)[i] == k;
    var d := Accepted(cs, k)[0];
    FilterMembers(Group(cs, k), HasAddress, d);
    GroupMembers(cs, k);
    RootWritersAreGroup(cs, k);
    assert Last(Group(cs, k)) in Group(cs, k);
  }

  /** A plain host is named like the upstream of a context host. */
  ghost predicate CtxClash(hosts: seq<Host>)
    requires Rooted(hosts)
  {
    exists i, j :: 0 <= i < |hosts| && 0 <= j < |hosts| && HasContext(hosts[i]) && !HasContext(hosts[j])
                   && hosts[j].upstream.name == "ctx" + hosts[i].upstream.name
  }

  /** Every host with a context path is keyed by its context name. */
  predicate CtxKeyed(hosts: seq<Host>)
    requires Rooted(hosts)
  {
    forall i :: 0 <= i < |hosts| ==>
      UpstreamName(hosts[i]) == if HasContext(hosts[i]) then "ctx" + hosts[i].upstream.name else hosts[i].upstream.name
  }

  lemma {:induction false} PairClash(hosts: seq<Host>, i: nat, j: nat)
    requires Rooted(hosts) && CtxKeyed(hosts) && i < |hosts| && j < |hosts|
    requires hosts[i].upstream.name != hosts[j].upstream.name && UpstreamName(hosts[i]) == UpstreamName(hosts[j])
    ensures CtxClash(hosts)
  {
    Cancel("ctx", hosts[i].upstream.name, hosts[j].upstream.name);
  }

  lemma {:induction false} NamesDistinct(hosts: seq<Host>)
    requires Rooted(hosts) && Distinct(Names(hosts)) && CtxKeyed(hosts)
    ensures Distinct(UpstreamNames(hosts)) <==> !CtxClash(hosts)
  {
    var names := UpstreamNames(hosts);
    if CtxClash(hosts) {
      var i, j :| 0 <= i < |hosts| && 0 <= j < |hosts| && HasContext(hosts[i]) && !HasContext(hosts[j])
                  && hosts[j].upstream.name == "ctx" + hosts[i].upstream.name;
      assert names[i] == names[j];
    }
    forall i, j | 0 <= i < j < |hosts| && names[i] == names[j] ensures CtxClash(hosts) {
      assert Names(hosts)[i] != Names(hosts)[j];
      PairClash(hosts, i, j);
    }
  }

  /** The emitted file is well linked: template execution succeeds, every proxy_pass resolves, and
      the upstreams are declared once each unless a plain host is named like a context host's. */
  lemma {:induction false} GeneratedFileIsLinked(cs: seq<Info>, settings: Settings, hosts: seq<Host>)
    requires HostsOf(cs, settings, hosts) && NoAliasIsDomain(cs)
    ensures Rooted(hosts) && Execute(hosts) == Success(Render(hosts))
    ensures PassesInto(Render(hosts), Declared(Render(hosts)))
    ensures Distinct(Declared(Render(hosts))) <==> !CtxClash(hosts)
  {
    forall i | 0 <= i < |hosts|
      ensures hosts[i].contextRoot.Some?
      ensures UpstreamName(hosts[i])
           == if HasContext(hosts[i]) then "ctx" + hosts[i].upstream.name else hosts[i].upstream.name
    {
      ContextKey(cs, settings, hosts, hosts[i]);
    }
    LinksResolve(hosts);
    NamesDistinct(hosts);
  }

  /** Without that condition the file can be broken: when a container has a context root and
      another container's domain as alias, and no later container names either root, two hosts
      declare the same upstream. */
  lemma {:induction false} AliasedDomainDuplicates(before: seq<Info>, c: Info, after: seq<Info>, a: Info,
                                                   settings: Settings, hosts: seq<Host>)
    requires HostsOf(before + [c] + after, settings, hosts)
    requires HasAddress(c) && c.contextRoot != "" && a in before + [c] + after && HasAddress(a)
    requires EffectiveDomain(a) in c.aliasDomains && EffectiveDomain(a) != EffectiveDomain(c)
    requires forall d :: d in after ==> !NamesRoot(d, HasAddress, EffectiveDomain(a))
    requires forall d :: d in after ==> !NamesRoot(d, HasAddress, EffectiveDomain(c))
    ensures Rooted(hosts) && !Distinct(Declared(Render(hosts)))
  {
    var cs := before + [c] + after;
    FinalWriter(before, c, after, HasAddress, EffectiveDomain(a));
    FinalWriter(before, c, after, HasAddress, EffectiveDomain(c));
    AcceptedDomain(cs, a);
    AcceptedDomain(cs, c);
    DeclaredOnceExactly(cs, settings, hosts);
    assert Clash(cs, EffectiveDomain(c), EffectiveDomain(a));
  }

  lemma {:induction false} AcceptedDomain(cs: seq<Info>, c: Info)
    requires c in cs && HasAddress(c)
    ensures Accepted(cs, EffectiveDomain(c)) != []
  {
    GroupMembers(cs, EffectiveDomain(c));
    FilterMembers(Group(cs, EffectiveDomain(c)), HasAddress, c);
  }
}
