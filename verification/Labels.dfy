/** The generated hosts read off the container records, without the grouping that specifies them:
    which container, by its position in the list, decides each field of a host. */
module Labels {
  import opened Wrappers
  import opened Text
  import opened Lists
  import opened Containers
  import Nginx
  import HAProxy

  // ---- Positions ----

  ghost predicate Ascending(positions: seq<int>) {
    forall i, j :: 0 <= i < j < |positions| ==> positions[i] < positions[j]
  }

  /** The containers at the given positions. */
  ghost predicate At(xs: seq<Info>, cs: seq<Info>, positions: seq<int>) {
    |xs| == |positions| && forall i :: 0 <= i < |xs| ==> 0 <= positions[i] < |cs| && xs[i] == cs[positions[i]]
  }

  ghost predicate Positions(cs: seq<Info>, k: string, g: Info -> bool, positions: seq<int>) {
    && Ascending(positions)
    && forall i :: i in positions <==> 0 <= i < |cs| && EffectiveDomain(cs[i]) == k && g(cs[i])
  }

  lemma {:induction false} PositionsStep(cs: seq<Info>, c: Info, k: string, g: Info -> bool, positions: seq<int>)
    requires Positions(cs, k, g, positions)
    ensures Positions(cs + [c], k, g, if EffectiveDomain(c) == k && g(c) then positions + [|cs|] else positions)
  {
    assert forall j :: 0 <= j < |positions| ==> positions[j] in positions;
  }

  lemma {:induction false} AtStep(xs: seq<Info>, cs: seq<Info>, c: Info, positions: seq<int>)
    requires At(xs, cs, positions)
    ensures At(xs, cs + [c], positions) && At(xs + [c], cs + [c], positions + [|cs|])
  {
  }

  /** The positions of the containers of a group that satisfy g. */
  lemma {:induction false} GroupPositions(cs: seq<Info>, k: string, g: Info -> bool) returns (positions: seq<int>)
    ensures At(Filter(Group(cs, k), g), cs, positions)
    ensures Positions(cs, k, g, positions)
  {
    if cs == [] {
      positions := [];
    } else {
      var init, c := cs[..|cs| - 1], Last(cs);
      var earlier := GroupPositions(init, k, g);
      positions := OneMorePosition(init, c, k, g, earlier);
      assert cs == init + [c];
    }
  }

  lemma {:induction false} OneMorePosition(cs: seq<Info>, c: Info, k: string, g: Info -> bool, earlier: seq<int>)
    returns (positions: seq<int>)
    requires At(Filter(Group(cs, k), g), cs, earlier) && Positions(cs, k, g, earlier)
    ensures At(Filter(Group(cs + [c], k), g), cs + [c], positions)
    ensures Positions(cs + [c], k, g, positions)
  {
    PositionsStep(cs, c, k, g, earlier);
    FilteredGroupStep(cs, c, g, k);
    AtStep(Filter(Group(cs, k), g), cs, c, earlier);
    positions := if EffectiveDomain(c) == k && g(c) then earlier + [|cs|] else earlier;
  }

  /** Position i is the last one of key k that satisfies g. */
  ghost predicate IsLast(cs: seq<Info>, k: string, g: Info -> bool, i: int) {
    && 0 <= i < |cs| && IsKey(cs[i], k) && g(cs[i])
    && forall j :: i < j < |cs| && IsKey(cs[j], k) ==> !g(cs[j])
  }

  ghost predicate IsFirst(cs: seq<Info>, k: string, g: Info -> bool, i: int) {
    && 0 <= i < |cs| && IsKey(cs[i], k) && g(cs[i])
    && forall j :: 0 <= j < i && IsKey(cs[j], k) ==> !g(cs[j])
  }

  lemma {:induction false} KeysAreDomains(cs: seq<Info>, k: string)
    ensures forall j :: 0 <= j < |cs| ==> (IsKey(cs[j], k) <==> EffectiveDomain(cs[j]) == k)
  {
    forall j | 0 <= j < |cs| ensures IsKey(cs[j], k) <==> EffectiveDomain(cs[j]) == k {
      KeyExactly(cs[j], k);
    }
  }

  predicate Chosen(c: Info, k: string, g: Info -> bool) {
    EffectiveDomain(c) == k && g(c)
  }

  lemma {:induction false} GroupSnoc(cs: seq<Info>, k: string, g: Info -> bool)
    requires cs != []
    ensures Filter(Group(cs, k), g)
         == if Chosen(Last(cs), k, g) then Filter(Group(cs[..|cs| - 1], k), g) + [Last(cs)]
            else Filter(Group(cs[..|cs| - 1], k), g)
  {
    assert cs == cs[..|cs| - 1] + [Last(cs)];
    FilteredGroupStep(cs[..|cs| - 1], Last(cs), g, k);
  }

  lemma {:induction false} LastChosen(cs: seq<Info>, k: string, g: Info -> bool, i: int)
    requires 0 <= i < |cs| && Chosen(cs[i], k, g) && forall j :: i < j < |cs| ==> !Chosen(cs[j], k, g)
    ensures Filter(Group(cs, k), g) != [] && Last(Filter(Group(cs, k), g)) == cs[i]
  {
    GroupSnoc(cs, k, g);
    if i < |cs| - 1 {
      LastChosen(cs[..|cs| - 1], k, g, i);
    }
  }

  lemma {:induction false} NoneChosen(cs: seq<Info>, k: string, g: Info -> bool)
    requires forall j :: 0 <= j < |cs| ==> !Chosen(cs[j], k, g)
    ensures Filter(Group(cs, k), g) == []
  {
    if cs != [] {
      GroupSnoc(cs, k, g);
      NoneChosen(cs[..|cs| - 1], k, g);
    }
  }

  lemma {:induction false} FirstChosen(cs: seq<Info>, k: string, g: Info -> bool, i: int)
    requires 0 <= i < |cs| && Chosen(cs[i], k, g) && forall j :: 0 <= j < i ==> !Chosen(cs[j], k, g)
    ensures Filter(Group(cs, k), g) != [] && Filter(Group(cs, k), g)[0] == cs[i]
  {
    GroupSnoc(cs, k, g);
    if i < |cs| - 1 {
      FirstChosen(cs[..|cs| - 1], k, g, i);
    } else {
      NoneChosen(cs[..|cs| - 1], k, g);
    }
  }

  lemma {:induction false} LastOfGroup(cs: seq<Info>, k: string, g: Info -> bool, i: int)
    requires IsLast(cs, k, g, i)
    ensures Filter(Group(cs, k), g) != [] && Last(Filter(Group(cs, k), g)) == cs[i]
  {
    KeysAreDomains(cs, k);
    LastChosen(cs, k, g, i);
  }

  lemma {:induction false} FirstOfGroup(cs: seq<Info>, k: string, g: Info -> bool, i: int)
    requires IsFirst(cs, k, g, i)
    ensures Filter(Group(cs, k), g) != [] && Filter(Group(cs, k), g)[0] == cs[i]
  {
    KeysAreDomains(cs, k);
    FirstChosen(cs, k, g, i);
  }

  lemma {:induction false} NoneOfGroup(cs: seq<Info>, k: string, g: Info -> bool)
    requires forall j :: 0 <= j < |cs| && IsKey(cs[j], k) ==> !g(cs[j])
    ensures Filter(Group(cs, k), g) == []
  {
    KeysAreDomains(cs, k);
    NoneChosen(cs, k, g);
  }

  lemma {:induction false} LastKey(cs: seq<Info>, k: string, i: int)
    requires 0 <= i < |cs| && IsKey(cs[i], k) && forall j :: i < j < |cs| ==> !IsKey(cs[j], k)
    ensures Group(cs, k) != [] && Last(Group(cs, k)) == cs[i]
  {
    LastOfGroup(cs, k, Always, i);
    FilterAlways(Group(cs, k));
  }

  /** Position i is the last one that names host k: by its key, or by an alias once accepted. */
  ghost predicate NamesLast(cs: seq<Info>, accepted: Info -> bool, k: string, i: int) {
    && 0 <= i < |cs| && (IsKey(cs[i], k) || (accepted(cs[i]) && k in cs[i].aliasDomains))
    && forall j :: i < j < |cs| ==> !IsKey(cs[j], k) && !(accepted(cs[j]) && k in cs[j].aliasDomains)
  }

  lemma {:induction false} LastNamed(cs: seq<Info>, accepted: Info -> bool, k: string, i: int)
    requires NamesLast(cs, accepted, k, i)
    ensures RootWriters(cs, accepted, k) != [] && Last(RootWriters(cs, accepted, k)) == cs[i]
  {
    KeyExactly(Last(cs), k);
    if i < |cs| - 1 {
      LastNamed(cs[..|cs| - 1], accepted, k, i);
    }
  }

  /** A host's context root is the label of a container, and its name that label with '_' for '/'. */
  ghost predicate RootFrom(root: Option<ContextRoot>, path: string) {
    && root.Some? && root.value.path == path && |root.value.name| == |path|
    && forall i :: 0 <= i < |path| ==> root.value.name[i] == if path[i] == '/' then '_' else path[i]
  }

  // ---- nginx ----

  /** The last container of the host's key sets its flags, whether it gets an address or not. */
  lemma {:induction false} NginxFlags(cs: seq<Info>, settings: Nginx.Settings, hosts: seq<Nginx.Host>, h: Nginx.Host,
                                      i: int)
    requires Nginx.HostsOf(cs, settings, hosts) && h in hosts
    requires 0 <= i < |cs| && IsKey(cs[i], h.upstream.name)
    requires forall j :: i < j < |cs| ==> !IsKey(cs[j], h.upstream.name)
    ensures h.port == settings.port && h.sslPort == settings.sslPort
    ensures h.ssl == cs[i].ssl && h.sslOnly == cs[i].sslOnly && h.sslBackend == cs[i].sslBackend
    ensures h.ipHash == cs[i].ipHash && h.contextRootRewrite == cs[i].contextRootRewrite
  {
    LastKey(cs, h.upstream.name, i);
    assert Nginx.IsHost(cs, settings, h);
  }

  /** The last container of the key with a certificate label sets the certificate. */
  lemma {:induction false} NginxCert(cs: seq<Info>, settings: Nginx.Settings, hosts: seq<Nginx.Host>, h: Nginx.Host,
                                     i: int)
    requires Nginx.HostsOf(cs, settings, hosts) && h in hosts
    requires IsLast(cs, h.upstream.name, (c: Info) => c.sslCert != "", i)
    ensures h.sslCert == settings.certPath(cs[i].sslCert)
  {
    LastOfGroup(cs, h.upstream.name, Nginx.HasCert, i);
    assert Nginx.IsHost(cs, settings, h);
  }

  /** The last container of the key with a label for it sets the certificate's key. */
  lemma {:induction false} NginxCertKey(cs: seq<Info>, settings: Nginx.Settings, hosts: seq<Nginx.Host>, h: Nginx.Host,
                                        i: int)
    requires Nginx.HostsOf(cs, settings, hosts) && h in hosts
    requires IsLast(cs, h.upstream.name, (c: Info) => c.sslCertKey != "", i)
    ensures h.sslCertKey == settings.certPath(cs[i].sslCertKey)
  {
    LastOfGroup(cs, h.upstream.name, Nginx.HasCertKey, i);
    assert Nginx.IsHost(cs, settings, h);
  }

  /** Without such labels there is no certificate, and no key. */
  lemma {:induction false} NginxNoCert(cs: seq<Info>, settings: Nginx.Settings, hosts: seq<Nginx.Host>, h: Nginx.Host)
    requires Nginx.HostsOf(cs, settings, hosts) && h in hosts
    ensures (forall j :: 0 <= j < |cs| && IsKey(cs[j], h.upstream.name) ==> cs[j].sslCert == "") ==> h.sslCert == ""
    ensures (forall j :: 0 <= j < |cs| && IsKey(cs[j], h.upstream.name) ==> cs[j].sslCertKey == "") ==>
            h.sslCertKey == ""
  {
    var k := h.upstream.name;
    assert Nginx.IsHost(cs, settings, h);
    if forall j :: 0 <= j < |cs| && IsKey(cs[j], k) ==> cs[j].sslCert == "" {
      NoneOfGroup(cs, k, Nginx.HasCert);
    }
    if forall j :: 0 <= j < |cs| && IsKey(cs[j], k) ==> cs[j].sslCertKey == "" {
      NoneOfGroup(cs, k, Nginx.HasCertKey);
    }
  }

  /** A host's servers are the addresses of its key's addressed containers in list order, and its
      names and endpoints are the key with those containers' aliases, and their endpoints. */
  lemma {:induction false} NginxServers(cs: seq<Info>, settings: Nginx.Settings, hosts: seq<Nginx.Host>, h: Nginx.Host)
    returns (positions: seq<int>, accepted: seq<Info>)
    requires Nginx.HostsOf(cs, settings, hosts) && h in hosts
    ensures At(accepted, cs, positions) && Ascending(positions)
    ensures forall i :: i in positions <==>
                        0 <= i < |cs| && IsKey(cs[i], h.upstream.name) && cs[i].backend.address.Some?
    ensures |h.upstream.servers| == |accepted|
    ensures forall j :: 0 <= j < |accepted| ==> Some(h.upstream.servers[j]) == accepted[j].backend.address
    ensures h.serverNames == [h.upstream.name] + Concat(accepted, (c: Info) => c.aliasDomains)
    ensures h.websocketEndpoints == Concat(accepted, (c: Info) => c.websocketEndpoints)
  {
    var k := h.upstream.name;
    assert Nginx.IsHost(cs, settings, h);
    accepted := Nginx.Accepted(cs, k);
    positions := GroupPositions(cs, k, HasAddress);
    forall j | 0 <= j < |accepted| ensures HasAddress(accepted[j]) {
      assert positions[j] in positions;
    }
    forall i | 0 <= i < |cs| ensures IsKey(cs[i], k) <==> EffectiveDomain(cs[i]) == k {
      KeyExactly(cs[i], k);
    }
    ConcatSame(accepted, Nginx.Aliases, (c: Info) => c.aliasDomains);
    ConcatSame(accepted, Nginx.Endpoints, (c: Info) => c.websocketEndpoints);
  }

  /** A host's context root comes from the last container that has its name as key, or as alias with
      an address. */
  lemma {:induction false} NginxRoot(cs: seq<Info>, settings: Nginx.Settings, hosts: seq<Nginx.Host>, h: Nginx.Host,
                                     i: int)
    requires Nginx.HostsOf(cs, settings, hosts) && h in hosts
    requires NamesLast(cs, (c: Info) => c.backend.address.Some?, h.upstream.name, i)
    ensures RootFrom(h.contextRoot, cs[i].contextRoot)
  {
    assert NamesLast(cs, HasAddress, h.upstream.name, i);
    LastNamed(cs, HasAddress, h.upstream.name, i);
    assert Nginx.IsHost(cs, settings, h);
  }

  // ---- HAProxy ----

  /** The last container of the host's domain with a numeric interval sets its SSL and balance
      settings. */
  lemma {:induction false} ProxySettings(cs: seq<Info>, hosts: seq<HAProxy.Host>, h: HAProxy.Host, i: int)
    requires HAProxy.HostsOf(cs, hosts) && h in hosts
    requires IsLast(cs, h.domain, (c: Info) => c.interval.Some?, i)
    ensures h.sslOnly == cs[i].sslOnly && h.sslBackend == cs[i].sslBackend
    ensures h.sslBackendTLSVerify == cs[i].sslBackendTLSVerify && h.balanceAlgorithm == cs[i].balanceAlgorithm
  {
    LastOfGroup(cs, h.domain, HAProxy.Parsed, i);
    assert h == HAProxy.HostFor(cs, h.domain);
  }

  /** The last container of the domain sets the rewrite flag, whatever its interval. */
  lemma {:induction false} ProxyRewrite(cs: seq<Info>, hosts: seq<HAProxy.Host>, h: HAProxy.Host, i: int)
    requires HAProxy.HostsOf(cs, hosts) && h in hosts
    requires 0 <= i < |cs| && IsKey(cs[i], h.domain) && forall j :: i < j < |cs| ==> !IsKey(cs[j], h.domain)
    ensures h.contextRootRewrite == cs[i].contextRootRewrite
  {
    LastKey(cs, h.domain, i);
    assert h == HAProxy.HostFor(cs, h.domain);
  }

  /** The check is that of the first container of the domain with a numeric interval and a check. */
  lemma {:induction false} ProxyCheck(cs: seq<Info>, hosts: seq<HAProxy.Host>, h: HAProxy.Host, i: int)
    requires HAProxy.HostsOf(cs, hosts) && h in hosts
    requires IsFirst(cs, h.domain, (c: Info) => c.interval.Some? && c.healthCheck != "", i)
    ensures h.check == cs[i].healthCheck
  {
    FirstOfGroup(cs, h.domain, HAProxy.HasCheck, i);
    assert h == HAProxy.HostFor(cs, h.domain);
  }

  /** The options are those of the last container of the domain with a numeric interval and options. */
  lemma {:induction false} ProxyOptions(cs: seq<Info>, hosts: seq<HAProxy.Host>, h: HAProxy.Host, i: int)
    requires HAProxy.HostsOf(cs, hosts) && h in hosts
    requires IsLast(cs, h.domain, (c: Info) => c.interval.Some? && c.backendOptions != [], i)
    ensures h.backendOptions == cs[i].backendOptions
  {
    LastOfGroup(cs, h.domain, HAProxy.HasOptions, i);
    assert h == HAProxy.HostFor(cs, h.domain);
  }

  /** A container of the domain with a numeric interval that sets this label. */
  ghost predicate Sets(cs: seq<Info>, k: string, g: Info -> bool) {
    exists j :: 0 <= j < |cs| && IsKey(cs[j], k) && cs[j].interval.Some? && g(cs[j])
  }

  /** Without such containers there is no check, and there are no options. */
  lemma {:induction false} ProxyNoCheck(cs: seq<Info>, hosts: seq<HAProxy.Host>, h: HAProxy.Host)
    requires HAProxy.HostsOf(cs, hosts) && h in hosts
    ensures !Sets(cs, h.domain, (c: Info) => c.healthCheck != "") ==> h.check == ""
    ensures !Sets(cs, h.domain, (c: Info) => c.backendOptions != []) ==> h.backendOptions == []
  {
    assert h == HAProxy.HostFor(cs, h.domain);
    if !Sets(cs, h.domain, (c: Info) => c.healthCheck != "") {
      NoneOfGroup(cs, h.domain, HAProxy.HasCheck);
    }
    if !Sets(cs, h.domain, (c: Info) => c.backendOptions != []) {
      NoneOfGroup(cs, h.domain, HAProxy.HasOptions);
    }
  }

  lemma {:induction false} ProxyRoot(cs: seq<Info>, hosts: seq<HAProxy.Host>, h: HAProxy.Host, i: int)
    requires HAProxy.HostsOf(cs, hosts) && h in hosts
    requires NamesLast(cs, (c: Info) => c.interval.Some? && c.backend.address.Some?, h.domain, i)
    ensures RootFrom(h.contextRoot, cs[i].contextRoot)
  {
    assert NamesLast(cs, HAProxy.Accepts, h.domain, i);
    LastNamed(cs, HAProxy.Accepts, h.domain, i);
    assert h == HAProxy.HostFor(cs, h.domain);
  }

  /** The upstream of a container. */
  ghost predicate UpstreamFrom(u: HAProxy.Upstream, c: Info) {
    u.container == c.name && Some(u.addr) == c.backend.address && Some(u.checkInterval) == c.interval
  }

  ghost predicate OriginsAt(us: seq<HAProxy.Upstream>, cs: seq<Info>, positions: seq<int>) {
    |us| == |positions| && forall j :: 0 <= j < |positions| ==>
      0 <= positions[j] < |cs| && us[j] == HAProxy.UpstreamOf(cs[positions[j]])
  }

  ghost predicate Climbing(positions: seq<int>) {
    forall i, j :: 0 <= i < j < |positions| ==> positions[i] <= positions[j]
  }

  /** Each position occurs as often as its container's weight. */
  ghost predicate Weighed(cs: seq<Info>, n: string, positions: seq<int>) {
    forall i :: 0 <= i < |cs| ==> multiset(positions)[i] == HAProxy.Weight(cs[i], n)
  }

  /** Where the upstreams of a name come from. */
  ghost predicate Origins(us: seq<HAProxy.Upstream>, cs: seq<Info>, n: string, positions: seq<int>) {
    OriginsAt(us, cs, positions) && Climbing(positions) && Weighed(cs, n, positions)
  }

  lemma {:induction false} AtOrigins(us: seq<HAProxy.Upstream>, cs: seq<Info>, c: Info, w: nat, positions: seq<int>)
    requires OriginsAt(us, cs, positions) && Climbing(positions)
    ensures OriginsAt(us + Repeat(HAProxy.UpstreamOf(c), w), cs + [c], positions + Repeat(|cs|, w))
    ensures Climbing(positions + Repeat(|cs|, w))
  {
  }

  lemma {:induction false} WeighedStep(cs: seq<Info>, c: Info, n: string, positions: seq<int>)
    requires Weighed(cs, n, positions) && forall j :: 0 <= j < |positions| ==> 0 <= positions[j] < |cs|
    ensures Weighed(cs + [c], n, positions + Repeat(|cs|, HAProxy.Weight(c, n)))
  {
    forall i | 0 <= i < |cs| + 1
      ensures multiset(positions + Repeat(|cs|, HAProxy.Weight(c, n)))[i] == HAProxy.Weight((cs + [c])[i], n)
    {
      PositionCount(positions, |cs|, HAProxy.Weight(c, n), i);
    }
  }

  lemma {:induction false} UpstreamPositions(cs: seq<Info>, n: string) returns (positions: seq<int>)
    ensures Origins(HAProxy.Upstreams(cs, n), cs, n, positions)
  {
    positions := [];
    if cs != [] {
      var init, c := cs[..|cs| - 1], Last(cs);
      var earlier := UpstreamPositions(init, n);
      AtOrigins(HAProxy.Upstreams(init, n), init, c, HAProxy.Weight(c, n), earlier);
      WeighedStep(init, c, n, earlier);
      assert cs == init + [c];
      positions := earlier + Repeat(|init|, HAProxy.Weight(c, n));
    }
  }

  lemma {:induction false} PositionCount(earlier: seq<int>, n: int, w: nat, i: int)
    requires i <= n && forall j :: 0 <= j < |earlier| ==> earlier[j] < n
    ensures multiset(earlier + Repeat(n, w))[i] == if i < n then multiset(earlier)[i] else w
  {
    RepeatCount(n, w, i);
    assert i == n ==> i !in earlier;
  }

  lemma {:induction false} RepeatCount(x: int, w: nat, i: int)
    ensures multiset(Repeat(x, w))[i] == if i == x then w else 0
  {
    if w > 0 {
      RepeatCount(x, w - 1, i);
      assert Repeat(x, w) == Repeat(x, w - 1) + [x];
    }
  }

  /** The upstreams of a name come from containers in list order: from each with a numeric interval
      and an address, once for its key and once for each alias that is the name. */
  lemma {:induction false} ProxyUpstreams(cs: seq<Info>, hosts: seq<HAProxy.Host>, h: HAProxy.Host)
    returns (positions: seq<int>)
    requires HAProxy.HostsOf(cs, hosts) && h in hosts
    ensures |h.upstreams| == |positions|
    ensures forall j :: 0 <= j < |positions| ==>
              0 <= positions[j] < |cs| && UpstreamFrom(h.upstreams[j], cs[positions[j]])
    ensures forall i, j :: 0 <= i < j < |positions| ==> positions[i] <= positions[j]
    ensures forall i | 0 <= i < |cs| :: multiset(positions)[i] ==
              if cs[i].interval.None? || cs[i].backend.address.None? then 0
              else multiset(cs[i].aliasDomains)[h.domain] + if IsKey(cs[i], h.domain) then 1 else 0
  {
    assert h == HAProxy.HostFor(cs, h.domain);
    positions := UpstreamPositions(cs, h.domain);
    forall i | 0 <= i < |cs|
      ensures multiset(positions)[i] ==
              if cs[i].interval.None? || cs[i].backend.address.None? then 0
              else multiset(cs[i].aliasDomains)[h.domain] + if IsKey(cs[i], h.domain) then 1 else 0
    {
      HAProxy.WeightByLabels(cs[i], h.domain);
    }
    forall j | 0 <= j < |positions| ensures UpstreamFrom(h.upstreams[j], cs[positions[j]]) {
      assert positions[j] in multiset(positions);
    }
  }
}
