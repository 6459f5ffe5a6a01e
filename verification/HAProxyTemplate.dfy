/** The ranges over the hosts in the HAProxy configuration template (ext/lb/haproxy/template.go). */
module HAProxyTemplate {
  import opened Wrappers
  import opened Text
  import opened Lists
  import opened Containers
  import opened HAProxy
  import Conservation

  /** What an acl line tests: a prefix of the request's path or of its Host header. */
  datatype Criterion = PathBeg(path: string) | HostBeg(domain: string)

  /** The host-dependent lines that define or use a name. */
  datatype Line =
    | Acl(name: string, criterion: Criterion)
    | UseBackend(target: string, acl: string)
    | Backend(name: string)
    | Balance(algorithm: string)
    | OptionLine(name: string)
    | Redirect
    | ServerLine(upstream: Upstream, verify: Option<string>)

  function HasContext(h: Host): bool
    requires h.contextRoot.Some?
  {
    h.contextRoot.value.path != ""
  }

  predicate Rooted(hosts: seq<Host>) {
    forall i :: 0 <= i < |hosts| ==> hosts[i].contextRoot.Some?
  }

  /** The backend that a host uses and defines. */
  function BackendName(h: Host): string
    requires h.contextRoot.Some?
  {
    if HasContext(h) then "ctx" + h.contextRoot.value.name else h.name
  }

  /** The name of a host's acl line. */
  function AclName(h: Host): string
    requires h.contextRoot.Some?
  {
    if HasContext(h) then "url" + h.contextRoot.value.name else "is_" + h.name
  }

  /** The test of a host's acl line. */
  function Test(h: Host): Criterion
    requires h.contextRoot.Some?
  {
    if HasContext(h) then PathBeg(h.contextRoot.value.path) else HostBeg(h.domain)
  }

  function FrontendLines(h: Host): seq<Line>
    requires h.contextRoot.Some?
  {
    [Acl(AclName(h), Test(h)), UseBackend(BackendName(h), AclName(h))]
  }

  function Options(options: seq<string>): (lines: seq<Line>)
    ensures |lines| == |options| && forall i :: 0 <= i < |lines| ==> lines[i].OptionLine?
  {
    seq(|options|, i requires 0 <= i < |options| => OptionLine(options[i]))
  }

  function Servers(h: Host): (lines: seq<Line>)
    ensures |lines| == |h.upstreams|
    ensures forall i :: 0 <= i < |lines| ==> lines[i].ServerLine? && lines[i].upstream == h.upstreams[i]
  {
    var verify := if h.sslBackend then Some(h.sslBackendTLSVerify) else None;
    seq(|h.upstreams|, i requires 0 <= i < |h.upstreams| => ServerLine(h.upstreams[i], verify))
  }

  function BackendLines(h: Host): seq<Line>
    requires h.contextRoot.Some?
  {
    [Backend(BackendName(h)), Balance(h.balanceAlgorithm)]
    + Options(h.backendOptions)
    + (if h.check != "" then [OptionLine(h.check)] else [])
    + (if h.sslOnly then [Redirect] else [])
    + Servers(h)
  }

  function Frontend(hosts: seq<Host>): seq<Line>
    requires Rooted(hosts)
  {
    if hosts == [] then [] else Frontend(hosts[..|hosts| - 1]) + FrontendLines(Last(hosts))
  }

  function Backends(hosts: seq<Host>): seq<Line>
    requires Rooted(hosts)
  {
    if hosts == [] then [] else Backends(hosts[..|hosts| - 1]) + BackendLines(Last(hosts))
  }

  /** Executing the template fails on a nil context root. */
  function Execute(hosts: seq<Host>): Result<seq<Line>, string> {
    if Rooted(hosts) then Success(Frontend(hosts) + Backends(hosts)) else Failure("nil pointer evaluating ContextRoot")
  }

  // ---- References ----

  function Targets(lines: seq<Line>): seq<string> {
    if lines == [] then
      []
    else
      var init := Targets(lines[..|lines| - 1]);
      if Last(lines).UseBackend? then init + [Last(lines).target] else init
  }

  function Sections(lines: seq<Line>): seq<string> {
    if lines == [] then
      []
    else
      var init := Sections(lines[..|lines| - 1]);
      if Last(lines).Backend? then init + [Last(lines).name] else init
  }

  lemma {:induction false} ReferencesAppend(a: seq<Line>, b: seq<Line>)
    ensures Targets(a + b) == Targets(a) + Targets(b)
    ensures Sections(a + b) == Sections(a) + Sections(b)
  {
    if b == [] {
      assert a + b == a;
    } else {
      assert (a + b)[..|a + b| - 1] == a + b[..|b| - 1];
      ReferencesAppend(a, b[..|b| - 1]);
    }
  }

  lemma {:induction false} NoReferences(lines: seq<Line>)
    requires forall i :: 0 <= i < |lines| ==> !lines[i].UseBackend? && !lines[i].Backend?
    ensures Targets(lines) == [] && Sections(lines) == []
  {
    if lines != [] {
      NoReferences(lines[..|lines| - 1]);
    }
  }

  function BackendNames(hosts: seq<Host>): (names: seq<string>)
    requires Rooted(hosts)
    ensures |names| == |hosts| && forall i :: 0 <= i < |hosts| ==> names[i] == BackendName(hosts[i])
  {
    seq(|hosts|, i requires 0 <= i < |hosts| => BackendName(hosts[i]))
  }

  lemma {:induction false} FrontendReferences(h: Host)
    requires h.contextRoot.Some?
    ensures Targets(FrontendLines(h)) == [BackendName(h)] && Sections(FrontendLines(h)) == []
  {
    var lines := FrontendLines(h);
    NoReferences(lines[..1]);
    assert lines[..|lines| - 1] == lines[..1];
  }

  lemma {:induction false} BackendReferences(h: Host)
    requires h.contextRoot.Some?
    ensures Targets(BackendLines(h)) == [] && Sections(BackendLines(h)) == [BackendName(h)]
  {
    var head, rest := [Backend(BackendName(h))], BackendLines(h)[1..];
    NoReferences(rest);
    assert head[..0] == [];
    ReferencesAppend(head, rest);
    assert BackendLines(h) == head + rest;
  }

  lemma {:induction false} RangeReferences(hosts: seq<Host>)
    requires Rooted(hosts)
    ensures Targets(Frontend(hosts)) == BackendNames(hosts) && Sections(Frontend(hosts)) == []
    ensures Targets(Backends(hosts)) == [] && Sections(Backends(hosts)) == BackendNames(hosts)
  {
    if hosts != [] {
      var init, h := hosts[..|hosts| - 1], Last(hosts);
      RangeReferences(init);
      assert BackendNames(hosts) == BackendNames(init) + [BackendName(h)];
      OneMoreHost(Frontend(init), Backends(init), BackendNames(init), h);
    }
  }

  lemma {:induction false} OneMoreHost(frontend: seq<Line>, backends: seq<Line>, names: seq<string>, h: Host)
    requires h.contextRoot.Some?
    requires Targets(frontend) == names && Sections(frontend) == []
    requires Targets(backends) == [] && Sections(backends) == names
    ensures Targets(frontend + FrontendLines(h)) == names + [BackendName(h)]
    ensures Sections(frontend + FrontendLines(h)) == []
    ensures Targets(backends + BackendLines(h)) == []
    ensures Sections(backends + BackendLines(h)) == names + [BackendName(h)]
  {
    FrontendReferences(h);
    BackendReferences(h);
    ReferencesAppend(frontend, FrontendLines(h));
    ReferencesAppend(backends, BackendLines(h));
  }

  /** For every host list, the use_backend targets are the backend sections, in order. */
  lemma {:induction false} TargetsMatchSections(hosts: seq<Host>)
    requires Rooted(hosts)
    ensures Targets(Execute(hosts).value) == Sections(Execute(hosts).value) == BackendNames(hosts)
  {
    RangeReferences(hosts);
    ReferencesAppend(Frontend(hosts), Backends(hosts));
    assert BackendNames(hosts) + [] == BackendNames(hosts) && [] + BackendNames(hosts) == BackendNames(hosts);
  }

  // ---- The generator's hosts ----

  /** Names that the dot-to-underscore replacement confuses. */
  predicate Confusable(a: string, b: string) {
    |a| == |b| && forall i :: 0 <= i < |a| ==>
      a[i] == b[i] || (a[i] == '.' && b[i] == '_') || (a[i] == '_' && b[i] == '.')
  }

  lemma {:induction false} ReplaceConfuses(a: string, b: string)
    ensures Replace(a, '.', '_') == Replace(b, '.', '_') <==> Confusable(a, b)
  {
    var x, y := Replace(a, '.', '_'), Replace(b, '.', '_');
    if x == y {
      forall i | 0 <= i < |a| ensures a[i] == b[i] || (a[i] == '.' && b[i] == '_') || (a[i] == '_' && b[i] == '.') {
        assert x[i] == y[i];
      }
    }
  }

  /** The backend name of host k, by its last context root. */
  function BackendOf(cs: seq<Info>, k: string): string {
    var root := FinalRoot(cs, Accepts, k);
    if root.path != "" then "ctx" + root.name else Replace(k, '.', '_')
  }

  lemma {:induction false} EmittedBackend(cs: seq<Info>, hosts: seq<Host>, i: nat)
    requires HostsOf(cs, hosts) && i < |hosts|
    ensures hosts[i].contextRoot.Some? && BackendName(hosts[i]) == BackendOf(cs, Domains(hosts)[i])
  {
    assert Domains(hosts)[i] == hosts[i].domain && hosts[i] in hosts;
    Conservation.UpstreamsNameRoots(cs, hosts[i].domain);
  }

  /** Two names end up with one backend name: their last context roots have the same name, the
      replacement confuses them, or it makes the plain one the backend of the other's root. */
  predicate Clash(cs: seq<Info>, k: string, l: string) {
    var a, b := FinalRoot(cs, Accepts, k), FinalRoot(cs, Accepts, l);
    if a.path == "" then b.path == "" && Confusable(k, l)
    else if b.path == "" then Replace(l, '.', '_') == "ctx" + a.name
    else a.name == b.name
  }

  lemma {:induction false} ClashMeaning(cs: seq<Info>, k: string, l: string)
    ensures BackendOf(cs, k) == BackendOf(cs, l) <==> Clash(cs, k, l) || Clash(cs, l, k)
  {
    var a, b := FinalRoot(cs, Accepts, k), FinalRoot(cs, Accepts, l);
    if a.path == "" && b.path == "" {
      ReplaceConfuses(k, l);
      ReplaceConfuses(l, k);
    } else {
      Cancel("ctx", a.name, b.name);
    }
  }

  /** For all labels: the backend sections are distinct exactly when no two served names clash. */
  lemma {:induction false} BackendsDistinctExactly(cs: seq<Info>, hosts: seq<Host>)
    requires HostsOf(cs, hosts)
    ensures Rooted(hosts)
    ensures Distinct(Sections(Execute(hosts).value)) <==>
            forall k, l :: k != l && Upstreams(cs, k) != [] && Upstreams(cs, l) != [] ==> !Clash(cs, k, l)
  {
    var keys := Domains(hosts);
    forall i | 0 <= i < |hosts|
      ensures hosts[i].contextRoot.Some? && BackendName(hosts[i]) == BackendOf(cs, keys[i])
    {
      EmittedBackend(cs, hosts, i);
    }
    TargetsMatchSections(hosts);
    forall i, j | 0 <= i < |keys| && 0 <= j < |keys| && i != j
      ensures BackendNames(hosts)[i] == BackendNames(hosts)[j] <==>
              Clash(cs, keys[i], keys[j]) || Clash(cs, keys[j], keys[i])
    {
      ClashMeaning(cs, keys[i], keys[j]);
    }
    DistinctImages(keys, BackendNames(hosts), (k, l) => Clash(cs, k, l));
  }

  lemma {:induction false} RootWritersOf(cs: seq<Info>, k: string)
    requires forall c :: c in cs ==> c.contextRoot == ""
    ensures forall c :: c in RootWriters(cs, Accepts, k) ==> c.contextRoot == ""
  {
    RootWritersMembers(cs, Accepts, k);
  }

  /** Without context roots the backends are distinct exactly when no two names differ only in
      dots and underscores; in particular when no name has an underscore. */
  lemma {:induction false} BackendsDistinct(cs: seq<Info>, hosts: seq<Host>)
    requires HostsOf(cs, hosts) && forall c :: c in cs ==> c.contextRoot == ""
    ensures Rooted(hosts) && Execute(hosts).Success?
    ensures Distinct(Sections(Execute(hosts).value)) <==>
            forall i, j :: 0 <= i < j < |hosts| ==> !Confusable(hosts[i].domain, hosts[j].domain)
    ensures (forall h :: h in hosts ==> '_' !in h.domain) ==> Distinct(Sections(Execute(hosts).value))
  {
    Conservation.ProxyHostsWellFormed(cs, hosts);
    TargetsMatchSections(hosts);
    var names := BackendNames(hosts);
    forall i | 0 <= i < |hosts| ensures names[i] == Replace(hosts[i].domain, '.', '_') {
      assert hosts[i] in hosts;
      RootWritersOf(cs, hosts[i].domain);
      assert Last(RootWriters(cs, Accepts, hosts[i].domain)) in RootWriters(cs, Accepts, hosts[i].domain);
    }
    forall i, j | 0 <= i < j < |hosts| ensures names[i] == names[j] <==> Confusable(hosts[i].domain, hosts[j].domain) {
      ReplaceConfuses(hosts[i].domain, hosts[j].domain);
    }
    if forall h :: h in hosts ==> '_' !in h.domain {
      forall i, j | 0 <= i < j < |hosts| ensures !Confusable(hosts[i].domain, hosts[j].domain) {
        assert hosts[i] in hosts && hosts[j] in hosts;
        UnderscoreFree(hosts[i].domain, hosts[j].domain);
        assert Domains(hosts)[i] != Domains(hosts)[j];
      }
    }
  }

  lemma {:induction false} UnderscoreFree(a: string, b: string)
    requires '_' !in a && '_' !in b && a != b
    ensures !Confusable(a, b)
  {
    if |a| == |b| {
      var i :| 0 <= i < |a| && a[i] != b[i];
      assert a[i] in a && b[i] in b;
    }
  }

  /** With context roots they are not: when a container has a context root and an alias, and no
      later container names the root of either of its names, both have the same backend. */
  lemma {:induction false} ContextAliasDuplicates(before: seq<Info>, c: Info, after: seq<Info>, hosts: seq<Host>,
                                                  alias: string)
    requires HostsOf(before + [c] + after, hosts) && Accepts(c) && c.contextRoot != ""
    requires alias in c.aliasDomains && alias != EffectiveDomain(c)
    requires forall d :: d in after ==> !NamesRoot(d, Accepts, alias) && !NamesRoot(d, Accepts, EffectiveDomain(c))
    ensures Rooted(hosts) && !Distinct(Sections(Execute(hosts).value))
  {
    var cs := before + [c] + after;
    FinalWriter(before, c, after, Accepts, alias);
    FinalWriter(before, c, after, Accepts, EffectiveDomain(c));
    CountPositive(c.aliasDomains, alias);
    assert c in cs && Weight(c, alias) > 0 && Weight(c, EffectiveDomain(c)) > 0;
    UpstreamsNonEmpty(cs, alias);
    UpstreamsNonEmpty(cs, EffectiveDomain(c));
    BackendsDistinctExactly(cs, hosts);
    assert Clash(cs, EffectiveDomain(c), alias);
  }
}
