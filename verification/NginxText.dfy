/** The nginx file as text: its braces balance, and when its locations collide. */
module NginxText {
  import opened Wrappers
  import opened Text
  import opened Lists
  import opened Containers
  import opened Nginx
  import opened NginxTemplate

  predicate Plain(s: string) {
    '{' !in s && '}' !in s
  }

  function KindText(kind: BlockKind): (s: string)
    ensures Plain(s)
  {
    match kind
    case EventsBlock => "events "
    case HttpBlock => "http "
    case MapBlock => "map "
    case ServerBlock => "server "
    case LocationBlock => "location "
    case UpstreamBlock => "upstream "
  }

  /** The words of the lines without values. */
  function Words(line: FixedLine): seq<string> {
    match line
    case DefaultName => ["server_name", "_"]
    case Return503 => ["return", "503"]
    case StubStatus => ["stub_status", "on"]
    case AccessLogOff => ["access_log", "off"]
    case RewriteSlash => ["rewrite", "^([^.]*[^/])$", "$1/", "permanent"]
    case IpHashLine => ["ip_hash"]
    case ReturnHttps => ["return", "302", "https://$server_name$request_uri"]
    case ProxyHttp11 => ["proxy_http_version", "1.1"]
    case UpgradeHeader => ["proxy_set_header", "Upgrade", "$http_upgrade"]
    case ConnectionHeader => ["proxy_set_header", "Connection", "$connection_upgrade"]
    case SslOn => ["ssl", "on"]
  }

  function FixedText(line: FixedLine): string {
    Join(Words(line), ' ') + ";"
  }

  lemma {:induction false} FixedPlain(line: FixedLine)
    ensures Plain(FixedText(line))
  {
    if IsRedirect(line) {
      RedirectPlain(line);
    } else if IsProxying(line) {
      ProxyingPlain(line);
    } else {
      SettingPlain(line);
    }
    JoinPlain(Words(line));
  }

  predicate IsRedirect(line: FixedLine) {
    line.Return503? || line.ReturnHttps?
  }

  predicate IsProxying(line: FixedLine) {
    line.RewriteSlash? || line.UpgradeHeader? || line.ConnectionHeader?
  }

  lemma {:induction false} RedirectPlain(line: FixedLine)
    requires IsRedirect(line)
    ensures forall i :: 0 <= i < |Words(line)| ==> Plain(Words(line)[i])
  {
  }

  lemma {:induction false} ProxyingPlain(line: FixedLine)
    requires IsProxying(line)
    ensures forall i :: 0 <= i < |Words(line)| ==> Plain(Words(line)[i])
  {
  }

  lemma {:induction false} SettingPlain(line: FixedLine)
    requires !IsRedirect(line) && !IsProxying(line)
    ensures forall i :: 0 <= i < |Words(line)| ==> Plain(Words(line)[i])
  {
  }

  function Before(name: ValueLine): (s: string)
    ensures Plain(s)
  {
    match name
    case Zone => "zone "
    case ServerAddr => "server "
    case Listen => "listen "
    case ServerNames => "server_name "
    case SslCertificate => "ssl_certificate "
    case SslCertificateKey => "ssl_certificate_key "
    case RewritePath => "rewrite  ^"
  }

  function Behind(name: ValueLine): (s: string)
    ensures Plain(s)
  {
    match name
    case Zone => "_backend 64k;"
    case RewritePath => "/(.*)  /$1 break;"
    case _ => ";"
  }

  function PassText(https: bool): (s: string)
    ensures Plain(s)
  {
    if https then "proxy_pass https://" else "proxy_pass http://"
  }

  function TokenText(t: Token): string {
    match t
    case Open(kind, arg) => KindText(kind) + arg + " " + "{"
    case Close => "}"
    case Fixed(line) => FixedText(line)
    case Directive(name, value) => Before(name) + value + Behind(name)
    case ProxyPass(https, target) => PassText(https) + target + ";"
  }

  function FileText(tokens: seq<Token>): string {
    if tokens == [] then "" else FileText(tokens[..|tokens| - 1]) + TokenText(Last(tokens)) + "\n"
  }

  /** The brace depth after s, from depth d; None when a block is closed that was not open. */
  function Depth(s: string, d: nat): Option<nat> {
    if s == "" then Some(d)
    else if s[0] == '{' then Depth(s[1..], d + 1)
    else if s[0] == '}' then if d == 0 then None else Depth(s[1..], d - 1)
    else Depth(s[1..], d)
  }

  lemma {:induction false} DepthPlain(s: string, d: nat)
    requires Plain(s)
    ensures Depth(s, d) == Some(d)
  {
    if s != "" {
      DepthPlain(s[1..], d);
    }
  }

  lemma {:induction false} DepthAppend(a: string, b: string, d: nat)
    ensures Depth(a + b, d) == match Depth(a, d) { case None => None case Some(e) => Depth(b, e) }
  {
    if a == "" {
      assert a + b == b;
    } else {
      assert (a + b)[1..] == a[1..] + b;
      if a[0] == '{' {
        DepthAppend(a[1..], b, d + 1);
      } else if a[0] == '}' {
        if d > 0 {
          DepthAppend(a[1..], b, d - 1);
        }
      } else {
        DepthAppend(a[1..], b, d);
      }
    }
  }

  predicate PlainToken(t: Token) {
    match t
    case Open(_, arg) => Plain(arg)
    case Directive(_, value) => Plain(value)
    case ProxyPass(_, target) => Plain(target)
    case _ => true
  }

  /** The depth that a statement leaves. */
  function After(t: Token, d: nat): Option<nat> {
    match t
    case Open(_, _) => Some(d + 1)
    case Close => if d == 0 then None else Some(d - 1)
    case _ => Some(d)
  }

  lemma {:induction false} DepthAround(a: string, v: string, b: string, d: nat)
    requires Plain(a) && Plain(v) && Plain(b)
    ensures Depth(a + v + b, d) == Some(d)
  {
    DepthPlain(a + v + b, d);
  }

  lemma {:induction false} TokenDepth(t: Token, d: nat)
    requires PlainToken(t)
    ensures Depth(TokenText(t), d) == After(t, d)
  {
    match t
    case Open(kind, arg) =>
      DepthAround(KindText(kind), arg, " ", d);
      DepthAppend(KindText(kind) + arg + " ", "{", d);
    case Close =>
    case Fixed(line) =>
      FixedPlain(line);
      DepthPlain(FixedText(line), d);
    case Directive(name, value) => DepthAround(Before(name), value, Behind(name), d);
    case ProxyPass(https, target) => DepthAround(PassText(https), target, ";", d);
  }

  function Level(tokens: seq<Token>, d: nat): Option<nat> {
    if tokens == [] then
      Some(d)
    else
      match Level(tokens[..|tokens| - 1], d)
      case None => None
      case Some(e) => After(Last(tokens), e)
  }

  /** The depth of the text is that of its statements. */
  lemma {:induction false} FileDepth(tokens: seq<Token>, d: nat)
    requires forall t :: t in tokens ==> PlainToken(t)
    ensures Depth(FileText(tokens), d) == Level(tokens, d)
  {
    if tokens != [] {
      var init, t := tokens[..|tokens| - 1], Last(tokens);
      FileDepth(init, d);
      DepthAppend(FileText(init), TokenText(t), d);
      DepthAppend(FileText(init) + TokenText(t), "\n", d);
      assert t in tokens;
      if Level(init, d).Some? {
        TokenDepth(t, Level(init, d).value);
        if Level(tokens, d).Some? {
          DepthPlain("\n", Level(tokens, d).value);
        }
      }
    }
  }

  // ---- Balanced statement lists ----

  /** Brace-free values, and every block opened is closed. */
  ghost predicate Sound(tokens: seq<Token>) {
    (forall t :: t in tokens ==> PlainToken(t)) && forall d: nat :: Level(tokens, d) == Some(d)
  }

  lemma {:induction false} LevelAppend(a: seq<Token>, b: seq<Token>, d: nat)
    ensures Level(a + b, d) == match Level(a, d) { case None => None case Some(e) => Level(b, e) }
  {
    if b == [] {
      assert a + b == a;
    } else {
      assert (a + b)[..|a + b| - 1] == a + b[..|b| - 1];
      LevelAppend(a, b[..|b| - 1], d);
    }
  }

  lemma {:induction false} SoundAppend(a: seq<Token>, b: seq<Token>)
    requires Sound(a) && Sound(b)
    ensures Sound(a + b)
  {
    forall d: nat ensures Level(a + b, d) == Some(d) {
      LevelAppend(a, b, d);
    }
  }

  /** A list of statements that are no ends of blocks. */
  lemma {:induction false} SoundLines(tokens: seq<Token>)
    requires forall t :: t in tokens ==> PlainToken(t) && !t.Open? && !t.Close?
    ensures Sound(tokens)
  {
    forall d: nat ensures Level(tokens, d) == Some(d) {
      LinesLevel(tokens, d);
    }
  }

  lemma {:induction false} LinesLevel(tokens: seq<Token>, d: nat)
    requires forall t :: t in tokens ==> !t.Open? && !t.Close?
    ensures Level(tokens, d) == Some(d)
  {
    if tokens != [] {
      assert Last(tokens) in tokens;
      LinesLevel(tokens[..|tokens| - 1], d);
    }
  }

  lemma {:induction false} SoundBlock(kind: BlockKind, arg: string, body: seq<Token>)
    requires Plain(arg) && Sound(body)
    ensures Sound(Block(kind, arg, body))
  {
    var open := Open(kind, arg);
    forall d: nat ensures Level([open] + body + [Close], d) == Some(d) {
      assert [open][..0] == [];
      LevelAppend([open], body, d);
      LevelAppend([open] + body, [Close], d);
      assert [Close][..0] == [];
    }
  }

  /** The values that the template substitutes for a host. */
  ghost predicate PlainHost(h: Host) {
    && (h.contextRoot.Some? ==> Plain(h.contextRoot.value.name) && Plain(h.contextRoot.value.path))
    && Plain(h.upstream.name) && Plain(h.sslCert) && Plain(h.sslCertKey)
    && (forall n :: n in h.serverNames ==> Plain(n))
    && (forall s :: s in h.upstream.servers ==> Plain(s))
    && (forall w :: w in h.websocketEndpoints ==> Plain(w))
  }

  lemma {:induction false} JoinPlain(parts: seq<string>)
    requires forall p :: p in parts ==> Plain(p)
    ensures Plain(Join(parts, ' '))
  {
    if |parts| > 0 {
      assert parts[0] in parts;
      JoinPlain(parts[1..]);
    }
  }

  lemma {:induction false} ServerLinesSound(servers: seq<string>)
    requires forall s :: s in servers ==> Plain(s)
    ensures Sound(Concat(servers, ServerLine))
  {
    if servers != [] {
      assert Last(servers) in servers;
      ServerLinesSound(servers[..|servers| - 1]);
      SoundLines(ServerLine(Last(servers)));
      SoundAppend(Concat(servers[..|servers| - 1], ServerLine), ServerLine(Last(servers)));
    }
  }

  lemma {:induction false} StatusSound()
    ensures Sound(StatusLocation())
  {
    SoundLines([Fixed(StubStatus), Fixed(AccessLogOff)]);
    SoundBlock(LocationBlock, "/nginx_status", [Fixed(StubStatus), Fixed(AccessLogOff)]);
  }

  lemma {:induction false} WebsocketSound(h: Host, ws: string)
    requires Plain(h.upstream.name) && Plain(ws)
    ensures Sound(Websocket(h, ws))
  {
    var body := [Pass(h), Fixed(ProxyHttp11), Fixed(UpgradeHeader), Fixed(ConnectionHeader)];
    SoundLines(body);
    SoundBlock(LocationBlock, ws, body);
    StatusSound();
    SoundAppend(Block(LocationBlock, ws, body), StatusLocation());
  }

  lemma {:induction false} WebsocketsSound(h: Host, endpoints: seq<string>)
    requires Plain(h.upstream.name) && forall w :: w in endpoints ==> Plain(w)
    ensures Sound(Websockets(h, endpoints))
  {
    if endpoints != [] {
      assert Last(endpoints) in endpoints;
      WebsocketsSound(h, endpoints[..|endpoints| - 1]);
      WebsocketSound(h, Last(endpoints));
      SoundAppend(Websockets(h, endpoints[..|endpoints| - 1]), Websocket(h, Last(endpoints)));
    }
  }

  lemma {:induction false} RoutesSound(h: Host)
    requires PlainHost(h)
    ensures Sound(Routes(h))
  {
    SoundLines([Pass(h)]);
    SoundBlock(LocationBlock, "/", [Pass(h)]);
    WebsocketsSound(h, h.websocketEndpoints);
    SoundAppend(RootLocation(h), Websockets(h, h.websocketEndpoints));
  }

  lemma {:induction false} ServerSound(lines: seq<Token>, body: seq<Token>)
    requires Sound(lines) && Sound(body)
    ensures Sound(Block(ServerBlock, "", lines + body))
  {
    SoundAppend(lines, body);
    SoundBlock(ServerBlock, "", lines + body);
  }

  lemma {:induction false} PlainServerSound(h: Host)
    requires PlainHost(h)
    ensures Sound(PlainServer(h))
  {
    JoinPlain(h.serverNames);
    var lines := [Directive(Listen, Decimal(h.port)), ServerName(h)];
    SoundLines(lines);
    SoundLines([Fixed(ReturnHttps)]);
    RoutesSound(h);
    ServerSound(lines, if h.sslOnly then [Fixed(ReturnHttps)] else Routes(h));
  }

  lemma {:induction false} SslServerSound(h: Host)
    requires PlainHost(h)
    ensures Sound(SslServer(h))
  {
    JoinPlain(h.serverNames);
    var lines := [Directive(Listen, Decimal(h.sslPort)), Fixed(SslOn), Directive(SslCertificate, h.sslCert),
                  Directive(SslCertificateKey, h.sslCertKey), ServerName(h)];
    SoundLines(lines);
    RoutesSound(h);
    ServerSound(lines, Routes(h));
  }

  lemma {:induction false} UpstreamSound(h: Host, name: string, first: Token)
    requires PlainHost(h) && Plain(name) && PlainToken(first) && !first.Open? && !first.Close?
    ensures Sound(Block(UpstreamBlock, name, UpstreamLines(h, first)))
  {
    SoundLines([first]);
    ServerLinesSound(h.upstream.servers);
    SoundAppend([first], Concat(h.upstream.servers, ServerLine));
    SoundBlock(UpstreamBlock, name, UpstreamLines(h, first));
  }

  lemma {:induction false} HostSound(h: Host)
    requires PlainHost(h) && h.contextRoot.Some?
    ensures Sound(HostBlocks(h))
  {
    if HasContext(h) {
      UpstreamSound(h, CtxName(h), Directive(Zone, "ctx" + h.upstream.name));
    } else {
      var first := if h.ipHash then Fixed(IpHashLine) else Directive(Zone, h.upstream.name);
      UpstreamSound(h, h.upstream.name, first);
      PlainServerSound(h);
      SslServerSound(h);
      SoundAppend(PlainServer(h), SslServer(h));
      SoundAppend(Block(UpstreamBlock, h.upstream.name, UpstreamLines(h, first)), PlainServer(h) + SslServer(h));
    }
  }

  lemma {:induction false} ContextSound(h: Host)
    requires PlainHost(h) && h.contextRoot.Some?
    ensures Sound(ContextLocation(h))
  {
    if HasContext(h) {
      var path, pass := h.contextRoot.value.path, ProxyPass(false, CtxName(h));
      var body := if h.contextRootRewrite then [Fixed(RewriteSlash), Directive(RewritePath, path), pass] else [pass];
      SoundLines(body);
      SoundBlock(LocationBlock, path, body);
    }
  }

  lemma {:induction false} HostListsSound(hosts: seq<Host>)
    requires Rooted(hosts) && forall h :: h in hosts ==> PlainHost(h)
    ensures Sound(AllHostBlocks(hosts)) && Sound(ContextLocations(hosts))
  {
    if hosts != [] {
      var init, h := hosts[..|hosts| - 1], Last(hosts);
      assert h in hosts;
      HostListsSound(init);
      HostSound(h);
      ContextSound(h);
      SoundAppend(AllHostBlocks(init), HostBlocks(h));
      SoundAppend(ContextLocations(init), ContextLocation(h));
    }
  }

  /** Statements that lead from one depth to another, with brace-free values. */
  ghost predicate Leads(tokens: seq<Token>, d: nat, e: nat) {
    (forall t :: t in tokens ==> PlainToken(t)) && Level(tokens, d) == Some(e)
  }

  lemma {:induction false} LeadsAppend(a: seq<Token>, b: seq<Token>, d: nat, e: nat, f: nat)
    requires Leads(a, d, e) && Leads(b, e, f)
    ensures Leads(a + b, d, f)
  {
    LevelAppend(a, b, d);
  }

  lemma {:induction false} OneToken(t: Token, d: nat)
    requires PlainToken(t) && After(t, d).Some?
    ensures Leads([t], d, After(t, d).value)
  {
    assert [t][..0] == [];
  }

  /** The fixed part leaves the http block and the default server open. */
  lemma {:induction false} PreludeLeads()
    ensures Leads(Prelude(), 0, 2)
  {
    SoundBlock(EventsBlock, "", []);
    SoundBlock(MapBlock, "", []);
    SoundLines([Fixed(Return503)]);
    SoundBlock(LocationBlock, "/", [Fixed(Return503)]);
    SoundLines([Fixed(DefaultName)]);
    SoundAppend([Fixed(DefaultName)], Block(LocationBlock, "/", [Fixed(Return503)]));
    OneToken(Open(HttpBlock, ""), 0);
    OneToken(Open(ServerBlock, ""), 1);
    OpeningLeads(Block(EventsBlock, "", []), [Open(HttpBlock, "")], Block(MapBlock, "", []),
                 [Open(ServerBlock, "")], DefaultServer());
  }

  lemma {:induction false} OpeningLeads(events: seq<Token>, http: seq<Token>, maps: seq<Token>,
                                        server: seq<Token>, default: seq<Token>)
    requires Sound(events) && Sound(maps) && Sound(default) && Leads(http, 0, 1) && Leads(server, 1, 2)
    ensures Leads(events + http + maps + maps + server + default, 0, 2)
  {
    LeadsAppend(events, http, 0, 0, 1);
    LeadsAppend(events + http, maps, 0, 1, 1);
    LeadsAppend(events + http + maps, maps, 0, 1, 1);
    LeadsAppend(events + http + maps + maps, server, 0, 1, 2);
    LeadsAppend(events + http + maps + maps + server, default, 0, 2, 2);
  }

  lemma {:induction false} FileLeads(prelude: seq<Token>, contexts: seq<Token>, status: seq<Token>,
                                     blocks: seq<Token>, close: seq<Token>)
    requires Leads(prelude, 0, 2) && Sound(contexts) && Sound(status) && Sound(blocks)
    requires Leads(close, 2, 1) && Leads(close, 1, 0)
    ensures Leads(prelude + (contexts + (status + close + (blocks + close))), 0, 0)
  {
    LeadsAppend(blocks, close, 1, 1, 0);
    LeadsAppend(status, close, 2, 2, 1);
    LeadsAppend(status + close, blocks + close, 2, 1, 0);
    LeadsAppend(contexts, status + close + (blocks + close), 2, 2, 0);
    LeadsAppend(prelude, contexts + (status + close + (blocks + close)), 0, 2, 0);
  }

  /** When no substituted value contains a brace, the emitted text balances. */
  lemma {:induction false} EmittedTextBalances(hosts: seq<Host>)
    requires Rooted(hosts) && forall h :: h in hosts ==> PlainHost(h)
    ensures Depth(FileText(Render(hosts)), 0) == Some(0)
  {
    HostListsSound(hosts);
    StatusSound();
    PreludeLeads();
    OneToken(Close, 2);
    OneToken(Close, 1);
    FileLeads(Prelude(), ContextLocations(hosts), StatusLocation(), AllHostBlocks(hosts), [Close]);
    FileDepth(Render(hosts), 0);
  }

  // ---- Location paths ----

  function LocationPaths(tokens: seq<Token>): seq<string> {
    if tokens == [] then
      []
    else
      var t, paths := Last(tokens), LocationPaths(tokens[..|tokens| - 1]);
      if t.Open? && t.kind.LocationBlock? then paths + [t.arg] else paths
  }

  function EndpointPaths(endpoints: seq<string>): seq<string> {
    if endpoints == [] then [] else EndpointPaths(endpoints[..|endpoints| - 1]) + [Last(endpoints), "/nginx_status"]
  }

  lemma {:induction false} PathsAppend(a: seq<Token>, b: seq<Token>)
    ensures LocationPaths(a + b) == LocationPaths(a) + LocationPaths(b)
  {
    if b == [] {
      assert a + b == a;
    } else {
      assert (a + b)[..|a + b| - 1] == a + b[..|b| - 1];
      PathsAppend(a, b[..|b| - 1]);
    }
  }

  /** A block whose body has no location. */
  lemma {:induction false} PathsOfBlock(kind: BlockKind, arg: string, body: seq<Token>)
    ensures LocationPaths(Block(kind, arg, body))
         == (if kind.LocationBlock? then [arg] else []) + LocationPaths(body)
  {
    var open := [Open(kind, arg)];
    assert open[..0] == [] && [Close][..0] == [];
    PathsAppend(open, body);
    PathsAppend(open + body, [Close]);
  }

  lemma {:induction false} PathsOfLines(lines: seq<Token>)
    requires forall t :: t in lines ==> !t.Open?
    ensures LocationPaths(lines) == []
  {
    if lines != [] {
      assert Last(lines) in lines;
      PathsOfLines(lines[..|lines| - 1]);
    }
  }

  lemma {:induction false} PathsOfWebsocket(h: Host, ws: string)
    ensures LocationPaths(Websocket(h, ws)) == [ws, "/nginx_status"]
  {
    var body := [Pass(h), Fixed(ProxyHttp11), Fixed(UpgradeHeader), Fixed(ConnectionHeader)];
    var status := [Fixed(StubStatus), Fixed(AccessLogOff)];
    PathsOfLines(body);
    PathsOfLines(status);
    PathsOfBlock(LocationBlock, ws, body);
    PathsOfBlock(LocationBlock, "/nginx_status", status);
    PathsAppend(Block(LocationBlock, ws, body), StatusLocation());
  }

  lemma {:induction false} PathsOfWebsockets(h: Host, endpoints: seq<string>)
    ensures LocationPaths(Websockets(h, endpoints)) == EndpointPaths(endpoints)
  {
    if endpoints != [] {
      PathsOfWebsockets(h, endpoints[..|endpoints| - 1]);
      PathsOfWebsocket(h, Last(endpoints));
      PathsAppend(Websockets(h, endpoints[..|endpoints| - 1]), Websocket(h, Last(endpoints)));
    }
  }

  lemma {:induction false} PathsOfServer(h: Host, lines: seq<Token>)
    requires forall t :: t in lines ==> !t.Open?
    ensures LocationPaths(Block(ServerBlock, "", lines + Routes(h))) == ["/"] + EndpointPaths(h.websocketEndpoints)
  {
    PathsOfLines(lines);
    PathsOfLines([Pass(h)]);
    PathsOfBlock(LocationBlock, "/", [Pass(h)]);
    PathsOfWebsockets(h, h.websocketEndpoints);
    PathsAppend(RootLocation(h), Websockets(h, h.websocketEndpoints));
    PathsAppend(lines, Routes(h));
    PathsOfBlock(ServerBlock, "", lines + Routes(h));
  }

  /** At most one endpoint, of a path that the template does not use itself. */
  predicate OneEndpoint(ws: seq<string>) {
    |ws| == 0 || (|ws| == 1 && ws[0] != "/" && ws[0] != "/nginx_status")
  }

  lemma {:induction false} EndpointPathsDistinct(ws: seq<string>)
    ensures Distinct(["/"] + EndpointPaths(ws)) <==> OneEndpoint(ws)
  {
    if |ws| == 1 {
      assert EndpointPaths(ws[..0]) == [];
      ThreePaths(["/"] + EndpointPaths(ws), ws[0]);
    } else if |ws| > 1 {
      assert ws[..|ws| - 1][..|ws| - 2] == ws[..|ws| - 2];
      RepeatedPath(["/"], EndpointPaths(ws[..|ws| - 2]), ws[|ws| - 2], ws[|ws| - 1], "/nginx_status");
    }
  }

  // ---- The default server ----

  /** The default server block holds a location for each host with a context path. */
  function DefaultBlock(hosts: seq<Host>): seq<Token>
    requires Rooted(hosts)
  {
    Block(ServerBlock, "", DefaultServer() + ContextLocations(hosts) + StatusLocation())
  }

  /** It stands between the fixed blocks and the hosts' own blocks. */
  lemma {:induction false} DefaultBlockEmitted(hosts: seq<Host>)
    requires Rooted(hosts)
    ensures Render(hosts)
         == Block(EventsBlock, "", []) + [Open(HttpBlock, "")] + Block(MapBlock, "", []) + Block(MapBlock, "", [])
          + DefaultBlock(hosts) + (AllHostBlocks(hosts) + [Close])
  {
    Regroup(Block(EventsBlock, "", []) + [Open(HttpBlock, "")] + Block(MapBlock, "", []) + Block(MapBlock, "", []),
            [Open(ServerBlock, "")], DefaultServer(), ContextLocations(hosts), StatusLocation(), [Close],
            AllHostBlocks(hosts) + [Close]);
  }

  lemma {:induction false} Regroup(head: seq<Token>, open: seq<Token>, default: seq<Token>, contexts: seq<Token>,
                                   status: seq<Token>, close: seq<Token>, rest: seq<Token>)
    ensures head + open + default + (contexts + (status + close + rest))
         == head + (open + (default + contexts + status) + close) + rest
  {
  }

  function ContextPaths(hosts: seq<Host>): seq<string>
    requires Rooted(hosts)
  {
    if hosts == [] then
      []
    else
      var h, paths := Last(hosts), ContextPaths(hosts[..|hosts| - 1]);
      if HasContext(h) then paths + [h.contextRoot.value.path] else paths
  }

  lemma {:induction false} PathsOfContexts(hosts: seq<Host>)
    requires Rooted(hosts)
    ensures LocationPaths(ContextLocations(hosts)) == ContextPaths(hosts)
  {
    if hosts != [] {
      var init, h := hosts[..|hosts| - 1], Last(hosts);
      PathsOfContexts(init);
      PathsAppend(ContextLocations(init), ContextLocation(h));
      if HasContext(h) {
        var path, pass := h.contextRoot.value.path, ProxyPass(false, CtxName(h));
        var body := if h.contextRootRewrite then [Fixed(RewriteSlash), Directive(RewritePath, path), pass] else [pass];
        PathsOfLines(body);
        PathsOfBlock(LocationBlock, path, body);
      }
    }
  }

  lemma {:induction false} PathsOfDefault(hosts: seq<Host>)
    requires Rooted(hosts)
    ensures LocationPaths(DefaultBlock(hosts)) == ["/"] + ContextPaths(hosts) + ["/nginx_status"]
  {
    PathsOfContexts(hosts);
    PathsOfStatus();
    PathsOfDefaultServer();
    PathsOfParts(DefaultServer(), ContextLocations(hosts), StatusLocation());
  }

  lemma {:induction false} PathsOfStatus()
    ensures LocationPaths(StatusLocation()) == ["/nginx_status"]
  {
    PathsOfLines([Fixed(StubStatus), Fixed(AccessLogOff)]);
    PathsOfBlock(LocationBlock, "/nginx_status", [Fixed(StubStatus), Fixed(AccessLogOff)]);
  }

  lemma {:induction false} PathsOfDefaultServer()
    ensures LocationPaths(DefaultServer()) == ["/"]
  {
    PathsOfLines([Fixed(Return503)]);
    PathsOfBlock(LocationBlock, "/", [Fixed(Return503)]);
    PathsOfLines([Fixed(DefaultName)]);
    PathsAppend([Fixed(DefaultName)], Block(LocationBlock, "/", [Fixed(Return503)]));
  }

  lemma {:induction false} PathsOfParts(first: seq<Token>, middle: seq<Token>, last: seq<Token>)
    ensures LocationPaths(Block(ServerBlock, "", first + middle + last))
         == LocationPaths(first) + LocationPaths(middle) + LocationPaths(last)
  {
    PathsAppend(first, middle);
    PathsAppend(first + middle, last);
    PathsOfBlock(ServerBlock, "", first + middle + last);
  }

  predicate PathOf(h: Host, path: string)
    requires h.contextRoot.Some?
  {
    HasContext(h) && h.contextRoot.value.path == path
  }

  /** A context path that the default server uses itself, or that two hosts share. */
  ghost predicate PathClash(hosts: seq<Host>)
    requires Rooted(hosts)
  {
    || (exists i :: 0 <= i < |hosts| && (PathOf(hosts[i], "/") || PathOf(hosts[i], "/nginx_status")))
    || (exists i, j :: 0 <= i < j < |hosts| && HasContext(hosts[i])
                       && PathOf(hosts[j], hosts[i].contextRoot.value.path))
  }

  lemma {:induction false} ContextPathMembers(hosts: seq<Host>, path: string)
    requires Rooted(hosts)
    ensures path in ContextPaths(hosts) <==> exists i :: 0 <= i < |hosts| && PathOf(hosts[i], path)
  {
    if hosts != [] {
      ContextPathMembers(hosts[..|hosts| - 1], path);
    }
  }

  lemma {:induction false} DistinctSnocExactly(paths: seq<string>, path: string)
    ensures Distinct(paths + [path]) <==> Distinct(paths) && path !in paths
  {
    if Distinct(paths + [path]) {
      assert forall i :: 0 <= i < |paths| ==> (paths + [path])[i] == paths[i];
      assert (paths + [path])[|paths|] == path;
    } else if Distinct(paths) && path !in paths {
      DistinctSnoc(paths, path);
    }
  }

  lemma {:induction false} ContextPathsDistinct(hosts: seq<Host>)
    requires Rooted(hosts)
    ensures Distinct(ContextPaths(hosts)) <==>
            forall i, j :: 0 <= i < j < |hosts| && HasContext(hosts[i]) ==>
              !PathOf(hosts[j], hosts[i].contextRoot.value.path)
  {
    if hosts != [] {
      var init, h := hosts[..|hosts| - 1], Last(hosts);
      ContextPathsDistinct(init);
      ContextPathMembers(init, h.contextRoot.value.path);
      DistinctSnocExactly(ContextPaths(init), h.contextRoot.value.path);
      assert forall i :: 0 <= i < |init| ==> init[i] == hosts[i];
    }
  }

  lemma {:induction false} DistinctAround(first: string, paths: seq<string>, last: string)
    requires first != last
    ensures Distinct([first] + paths + [last]) <==> Distinct(paths) && first !in paths && last !in paths
  {
    DistinctSnocExactly([first] + paths, last);
    var all := [first] + paths;
    assert forall i :: 0 <= i < |paths| ==> all[i + 1] == paths[i];
    if Distinct(all) && first in paths {
      var i :| 0 <= i < |paths| && paths[i] == first;
      assert all[0] == all[i + 1];
    }
    if Distinct(paths) && first !in paths {
      forall i, j | 0 <= i < j < |all| ensures all[i] != all[j] {
        assert all[j] == paths[j - 1] && (i > 0 ==> all[i] == paths[i - 1]);
      }
    }
  }

  /** The default server has distinct locations exactly when no context path is its own `/` or
      `/nginx_status` and no two hosts have the same one. */
  lemma {:induction false} DefaultLocationsDistinct(hosts: seq<Host>)
    requires Rooted(hosts)
    ensures Distinct(LocationPaths(DefaultBlock(hosts))) <==> !PathClash(hosts)
  {
    PathsOfDefault(hosts);
    assert |"/"| != |"/nginx_status"|;
    DistinctAround("/", ContextPaths(hosts), "/nginx_status");
    ContextPathMembers(hosts, "/");
    ContextPathMembers(hosts, "/nginx_status");
    ContextPathsDistinct(hosts);
  }

  /** For generated hosts, when no alias is a domain, only a context root `/` or `/nginx_status`
      repeats a location: a shared path is a shared key. */
  lemma {:induction false} GeneratedLocationsDistinct(cs: seq<Info>, settings: Settings, hosts: seq<Host>)
    requires HostsOf(cs, settings, hosts) && NoAliasIsDomain(cs)
    ensures Rooted(hosts)
    ensures Distinct(LocationPaths(DefaultBlock(hosts))) <==>
            forall i :: 0 <= i < |hosts| ==> !PathOf(hosts[i], "/") && !PathOf(hosts[i], "/nginx_status")
  {
    forall i | 0 <= i < |hosts|
      ensures hosts[i].contextRoot.Some?
      ensures HasContext(hosts[i]) ==>
              hosts[i].upstream.name == Replace(hosts[i].contextRoot.value.path, '/', '_')
    {
      ContextKey(cs, settings, hosts, hosts[i]);
      EmittedUpstream(cs, settings, hosts, i);
      EmittedRoot(cs, settings, hosts, i);
    }
    DefaultLocationsDistinct(hosts);
    forall i, j | 0 <= i < j < |hosts| && HasContext(hosts[i])
      ensures !PathOf(hosts[j], hosts[i].contextRoot.value.path)
    {
      assert Names(hosts)[i] != Names(hosts)[j];
    }
  }

  // ---- The hosts' own servers ----

  /** The status location is emitted once for each websocket endpoint, so the server blocks of a
      host have distinct locations only with at most one endpoint of another path. */
  lemma {:induction false} LocationsDistinct(h: Host)
    ensures !h.sslOnly ==> (Distinct(LocationPaths(PlainServer(h))) <==> OneEndpoint(h.websocketEndpoints))
    ensures h.sslOnly ==> LocationPaths(PlainServer(h)) == []
    ensures h.ssl ==> (Distinct(LocationPaths(SslServer(h))) <==> OneEndpoint(h.websocketEndpoints))
  {
    PathsOfServer(h, [Directive(Listen, Decimal(h.port)), ServerName(h)]);
    PathsOfServer(h, [Directive(Listen, Decimal(h.sslPort)), Fixed(SslOn), Directive(SslCertificate, h.sslCert),
                      Directive(SslCertificateKey, h.sslCertKey), ServerName(h)]);
    EndpointPathsDistinct(h.websocketEndpoints);
    var redirect := [Directive(Listen, Decimal(h.port)), ServerName(h)] + [Fixed(ReturnHttps)];
    PathsOfLines(redirect);
    PathsOfBlock(ServerBlock, "", redirect);
  }

  lemma {:induction false} RepeatedPath(root: seq<string>, earlier: seq<string>, v: string, w: string, status: string)
    ensures !Distinct(root + (earlier + [v, status] + [w, status]))
  {
    var paths := root + (earlier + [v, status] + [w, status]);
    assert paths[|root| + |earlier| + 1] == paths[|root| + |earlier| + 3];
  }

  lemma {:induction false} ThreePaths(paths: seq<string>, w: string)
    requires paths == ["/"] + ([] + [w, "/nginx_status"])
    ensures Distinct(paths) <==> w != "/" && w != "/nginx_status"
  {
    assert paths[0] == "/" && paths[1] == w && paths[2] == "/nginx_status";
    assert |paths[0]| != |paths[2]|;
    if w != "/" && w != "/nginx_status" {
      forall i, j | 0 <= i < j < |paths| ensures paths[i] != paths[j] {
        assert (i == 0 && (j == 1 || j == 2)) || (i == 1 && j == 2);
      }
    }
  }
}
