/** The two generators treat aliases very differently: HAProxy gives every alias a host of its
    own, nginx adds it to the server names of the domain's host. This module says when the hosts
    of a name still carry the same addresses in both. */
module Routing {
  import opened Lists
  import opened Containers
  import Nginx
  import HAProxy

  function AddrOf(u: HAProxy.Upstream): string { u.addr }

  /** Where HAProxy sends name n. */
  function ProxyAddresses(cs: seq<Info>, n: string): seq<string> {
    Apply(HAProxy.Upstreams(cs, n), AddrOf)
  }

  /** Where nginx sends the names of the host of key k. */
  function NginxAddresses(cs: seq<Info>, k: string): seq<string> {
    Apply(Nginx.Accepted(cs, k), Address)
  }

  /** The host lists agree on name n: both know it or neither does, and every nginx host
      that lists it has the servers of the HAProxy host of that name, in the same order. */
  ghost predicate AgreeOn(ng: seq<Nginx.Host>, ha: seq<HAProxy.Host>, n: string) {
    && ((exists g :: g in ha && g.domain == n) <==> (exists h :: h in ng && n in h.serverNames))
    && (forall h, g :: h in ng && n in h.serverNames && g in ha && g.domain == n ==>
          h.upstream.servers == Apply(g.upstreams, AddrOf))
  }

  /** HAProxy counts each container of nginx's host k exactly once for name n, and no other. */
  ghost predicate Balanced(cs: seq<Info>, n: string, k: string) {
    forall c :: c in cs && HasAddress(c) ==> HAProxy.Weight(c, n) == if EffectiveDomain(c) == k then 1 else 0
  }

  /** Every nginx host that lists n is balanced for it. */
  ghost predicate BalancedName(cs: seq<Info>, n: string) {
    forall k :: Listed(cs, k, n) ==> Balanced(cs, n, k)
  }

  /** The emitted nginx host of key k lists name n. */
  predicate Listed(cs: seq<Info>, k: string, n: string) {
    Nginx.Accepted(cs, k) != [] && n in Nginx.NamesOf(cs, k)
  }

  ghost predicate DistinctAddresses(cs: seq<Info>) {
    forall i, j :: 0 <= i < j < |cs| && HasAddress(cs[i]) && HasAddress(cs[j]) ==> Address(cs[i]) != Address(cs[j])
  }

  // ---- Membership ----

  lemma {:induction false} AcceptedMembers(cs: seq<Info>, k: string)
    ensures forall c :: c in Nginx.Accepted(cs, k) <==> c in cs && HasAddress(c) && EffectiveDomain(c) == k
  {
    GroupMembers(cs, k);
    forall c ensures c in Nginx.Accepted(cs, k) <==> c in cs && HasAddress(c) && EffectiveDomain(c) == k {
      FilterMembers(Group(cs, k), HasAddress, c);
    }
  }

  lemma {:induction false} ConcatMembers(xs: seq<Info>, n: string)
    ensures n in Concat(xs, Nginx.Aliases) <==> exists c :: c in xs && n in c.aliasDomains
  {
    if xs != [] {
      ConcatMembers(xs[..|xs| - 1], n);
      assert xs == xs[..|xs| - 1] + [Last(xs)];
      assert Last(xs) in xs;
    }
  }

  lemma {:induction false} ListsMeaning(cs: seq<Info>, k: string, n: string)
    ensures Listed(cs, k, n) <==>
            (exists c :: c in cs && HasAddress(c) && EffectiveDomain(c) == k)
            && (n == k || exists c :: c in cs && HasAddress(c) && EffectiveDomain(c) == k && n in c.aliasDomains)
  {
    AcceptedMembers(cs, k);
    ConcatMembers(Nginx.Accepted(cs, k), n);
    if Nginx.Accepted(cs, k) != [] {
      assert Nginx.Accepted(cs, k)[0] in Nginx.Accepted(cs, k);
    }
  }

  /** A name that HAProxy serves is listed by some nginx host. */
  lemma {:induction false} ProxyNameIsListed(cs: seq<Info>, n: string)
    requires HAProxy.Upstreams(cs, n) != []
    ensures exists k :: Listed(cs, k, n)
  {
    HAProxy.UpstreamsNonEmpty(cs, n);
    var c :| c in cs && HAProxy.Weight(c, n) > 0;
    CountPositive(c.aliasDomains, n);
    ListsMeaning(cs, EffectiveDomain(c), n);
    assert Listed(cs, EffectiveDomain(c), n);
  }

  // ---- Address sequences ----

  /** One more container adds its weight in copies of its address. */
  lemma {:induction false} ProxyAddressesStep(cs: seq<Info>, c: Info, n: string)
    ensures ProxyAddresses(cs + [c], n) == ProxyAddresses(cs, n) + Repeat(Address(c), HAProxy.Weight(c, n))
  {
    assert (cs + [c])[..|cs|] == cs;
  }

  /** One more container of the group adds its address. */
  lemma {:induction false} NginxAddressesStep(cs: seq<Info>, c: Info, k: string)
    ensures NginxAddresses(cs + [c], k)
         == NginxAddresses(cs, k) + if HasAddress(c) && EffectiveDomain(c) == k then [Address(c)] else []
  {
    FilteredGroupStep(cs, c, HasAddress, k);
  }

  lemma {:induction false} BalancedAddresses(cs: seq<Info>, n: string, k: string)
    requires Balanced(cs, n, k)
    ensures ProxyAddresses(cs, n) == NginxAddresses(cs, k)
  {
    if cs != [] {
      var init, c := cs[..|cs| - 1], Last(cs);
      assert cs == init + [c] && c in cs;
      assert Balanced(init, n, k) by {
        assert forall d :: d in init ==> d in cs;
      }
      BalancedAddresses(init, n, k);
      ProxyAddressesStep(init, c, n);
      NginxAddressesStep(init, c, k);
    }
  }

  lemma {:induction false} CountAppend<T>(xs: seq<T>, ys: seq<T>, x: T)
    ensures Count(xs + ys, x) == Count(xs, x) + Count(ys, x)
  {
    if ys == [] {
      assert xs + ys == xs;
    } else {
      assert (xs + ys)[..|xs + ys| - 1] == xs + ys[..|ys| - 1];
      CountAppend(xs, ys[..|ys| - 1], x);
    }
  }

  lemma {:induction false} CountUniform<T>(xs: seq<T>, v: T, x: T)
    requires forall i :: 0 <= i < |xs| ==> xs[i] == v
    ensures Count(xs, x) == if x == v then |xs| else 0
  {
    if xs != [] {
      CountUniform(xs[..|xs| - 1], v, x);
    }
  }

  lemma {:induction false} ProxyCountStep(cs: seq<Info>, c: Info, n: string, a: string)
    ensures Count(ProxyAddresses(cs + [c], n), a)
         == Count(ProxyAddresses(cs, n), a) + if Address(c) == a then HAProxy.Weight(c, n) else 0
  {
    var copies := Repeat(Address(c), HAProxy.Weight(c, n));
    ProxyAddressesStep(cs, c, n);
    CountAppend(ProxyAddresses(cs, n), copies, a);
    CountUniform(copies, Address(c), a);
  }

  lemma {:induction false} NginxCountStep(cs: seq<Info>, c: Info, k: string, a: string)
    ensures Count(NginxAddresses(cs + [c], k), a)
         == Count(NginxAddresses(cs, k), a)
          + if Address(c) == a && HasAddress(c) && EffectiveDomain(c) == k then 1 else 0
  {
    var added := if HasAddress(c) && EffectiveDomain(c) == k then [Address(c)] else [];
    NginxAddressesStep(cs, c, k);
    CountAppend(NginxAddresses(cs, k), added, a);
    CountUniform(added, Address(c), a);
  }

  lemma {:induction false} ForeignAddress(cs: seq<Info>, n: string, k: string, a: string)
    requires forall i :: 0 <= i < |cs| && HasAddress(cs[i]) ==> Address(cs[i]) != a
    ensures Count(ProxyAddresses(cs, n), a) == 0 && Count(NginxAddresses(cs, k), a) == 0
  {
    if cs != [] {
      var init, c := cs[..|cs| - 1], Last(cs);
      ForeignAddress(init, n, k, a);
      assert cs == init + [c];
      ProxyCountStep(init, c, n, a);
      NginxCountStep(init, c, k, a);
    }
  }

  /** With distinct addresses, the copies of an address count its container's weight. */
  lemma {:induction false} CountIsWeight(cs: seq<Info>, n: string, k: string, i: nat)
    requires i < |cs| && HasAddress(cs[i]) && DistinctAddresses(cs)
    ensures Count(ProxyAddresses(cs, n), Address(cs[i])) == HAProxy.Weight(cs[i], n)
    ensures Count(NginxAddresses(cs, k), Address(cs[i])) == if EffectiveDomain(cs[i]) == k then 1 else 0
  {
    var init, c, a := cs[..|cs| - 1], Last(cs), Address(cs[i]);
    assert cs == init + [c];
    ProxyCountStep(init, c, n, a);
    NginxCountStep(init, c, k, a);
    if i == |cs| - 1 {
      ForeignAddress(init, n, k, a);
    } else {
      assert DistinctAddresses(init) && init[i] == cs[i];
      CountIsWeight(init, n, k, i);
      assert HasAddress(c) ==> Address(c) != a;
    }
  }

  lemma {:induction false} EqualAddressesAreBalanced(cs: seq<Info>, n: string, k: string)
    requires DistinctAddresses(cs) && ProxyAddresses(cs, n) == NginxAddresses(cs, k)
    ensures Balanced(cs, n, k)
  {
    forall c | c in cs && HasAddress(c)
      ensures HAProxy.Weight(c, n) == if EffectiveDomain(c) == k then 1 else 0
    {
      var i :| 0 <= i < |cs| && cs[i] == c;
      CountIsWeight(cs, n, k, i);
    }
  }

  // ---- Main results, for any configurations that the generators may return ----

  lemma {:induction false} NginxHostOf(cs: seq<Info>, settings: Nginx.Settings, ng: seq<Nginx.Host>, k: string)
    requires Nginx.HostsOf(cs, settings, ng) && Nginx.Accepted(cs, k) != []
    ensures exists h :: h in ng && h.upstream.name == k
  {
    Nginx.NameIndex(ng, k);
  }

  lemma {:induction false} ProxyHostOf(cs: seq<Info>, ha: seq<HAProxy.Host>, n: string)
    requires HAProxy.HostsOf(cs, ha)
    ensures HAProxy.Upstreams(cs, n) != [] <==> exists g :: g in ha && g.domain == n
  {
    HAProxy.DomainIndex(ha, n);
  }

  /** An emitted nginx host is what the specification says of its key. */
  lemma {:induction false} NginxHostMeaning(cs: seq<Info>, settings: Nginx.Settings, ng: seq<Nginx.Host>,
                                            h: Nginx.Host, n: string)
    requires Nginx.HostsOf(cs, settings, ng) && h in ng
    ensures n in h.serverNames <==> Listed(cs, h.upstream.name, n)
    ensures h.upstream.servers == NginxAddresses(cs, h.upstream.name) != []
  {
    var i :| 0 <= i < |ng| && ng[i] == h;
    assert Nginx.Names(ng)[i] == h.upstream.name;
    assert h == Nginx.HostFor(cs, settings, h.upstream.name);
  }

  lemma {:induction false} ProxyHostMeaning(cs: seq<Info>, ha: seq<HAProxy.Host>, g: HAProxy.Host)
    requires HAProxy.HostsOf(cs, ha) && g in ha
    ensures Apply(g.upstreams, AddrOf) == ProxyAddresses(cs, g.domain)
  {
    assert g == HAProxy.HostFor(cs, g.domain);
  }

  /** Every nginx host that lists n has the addresses that HAProxy has for n. */
  ghost predicate SameAddresses(cs: seq<Info>, n: string) {
    forall k :: Listed(cs, k, n) ==> ProxyAddresses(cs, n) == NginxAddresses(cs, k)
  }

  lemma {:induction false} AgreementGivesAddresses(cs: seq<Info>, settings: Nginx.Settings, ng: seq<Nginx.Host>,
                                                   ha: seq<HAProxy.Host>, n: string)
    requires Nginx.HostsOf(cs, settings, ng) && HAProxy.HostsOf(cs, ha) && AgreeOn(ng, ha, n)
    ensures SameAddresses(cs, n)
  {
    forall k | Listed(cs, k, n) ensures ProxyAddresses(cs, n) == NginxAddresses(cs, k) {
      NginxHostOf(cs, settings, ng, k);
      var h :| h in ng && h.upstream.name == k;
      NginxHostMeaning(cs, settings, ng, h, n);
      var g :| g in ha && g.domain == n;
      ProxyHostMeaning(cs, ha, g);
    }
  }

  lemma {:induction false} AddressesGiveAgreement(cs: seq<Info>, settings: Nginx.Settings, ng: seq<Nginx.Host>,
                                                  ha: seq<HAProxy.Host>, n: string)
    requires Nginx.HostsOf(cs, settings, ng) && HAProxy.HostsOf(cs, ha) && SameAddresses(cs, n)
    ensures AgreeOn(ng, ha, n)
  {
    ProxyHostOf(cs, ha, n);
    forall h | h in ng && n in h.serverNames
      ensures h.upstream.servers == ProxyAddresses(cs, n) && HAProxy.Upstreams(cs, n) != []
    {
      NginxHostMeaning(cs, settings, ng, h, n);
      assert Listed(cs, h.upstream.name, n);
    }
    forall g | g in ha && g.domain == n ensures Apply(g.upstreams, AddrOf) == ProxyAddresses(cs, n) {
      ProxyHostMeaning(cs, ha, g);
    }
    if HAProxy.Upstreams(cs, n) != [] {
      ProxyNameIsListed(cs, n);
      var k :| Listed(cs, k, n);
      NginxHostOf(cs, settings, ng, k);
      var h :| h in ng && h.upstream.name == k;
      NginxHostMeaning(cs, settings, ng, h, n);
    }
  }

  /** The host lists agree on a balanced name; when no two containers share an address, only on a
      balanced name. */
  lemma {:induction false} RoutingAgreesExactly(cs: seq<Info>, settings: Nginx.Settings, ng: seq<Nginx.Host>,
                                                ha: seq<HAProxy.Host>, n: string)
    requires Nginx.HostsOf(cs, settings, ng) && HAProxy.HostsOf(cs, ha)
    ensures BalancedName(cs, n) ==> AgreeOn(ng, ha, n)
    ensures DistinctAddresses(cs) ==> (AgreeOn(ng, ha, n) <==> BalancedName(cs, n))
  {
    if BalancedName(cs, n) {
      forall k | Listed(cs, k, n) ensures ProxyAddresses(cs, n) == NginxAddresses(cs, k) {
        BalancedAddresses(cs, n, k);
      }
      AddressesGiveAgreement(cs, settings, ng, ha, n);
    }
    if DistinctAddresses(cs) && AgreeOn(ng, ha, n) {
      AgreementGivesAddresses(cs, settings, ng, ha, n);
      forall k | Listed(cs, k, n) ensures Balanced(cs, n, k) {
        EqualAddressesAreBalanced(cs, n, k);
      }
    }
  }

  /** Labels as the documentation uses them: every interval is a number, containers of one domain
      declare the same aliases, once each, no alias is shared between domains or is a domain. */
  ghost predicate Disciplined(cs: seq<Info>) {
    && (forall c :: c in cs && HasAddress(c) ==> HAProxy.Parsed(c) && Distinct(c.aliasDomains))
    && (forall c, d :: c in cs && d in cs && HasAddress(c) && HasAddress(d) ==>
          && EffectiveDomain(c) !in d.aliasDomains
          && (forall a :: a in c.aliasDomains ==> (a in d.aliasDomains <==> EffectiveDomain(c) == EffectiveDomain(d))))
  }

  lemma {:induction false} DisciplinedIsBalanced(cs: seq<Info>, n: string)
    requires Disciplined(cs)
    ensures BalancedName(cs, n)
  {
    forall k, c | Listed(cs, k, n) && c in cs && HasAddress(c)
      ensures HAProxy.Weight(c, n) == if EffectiveDomain(c) == k then 1 else 0
    {
      ListsMeaning(cs, k, n);
      CountDistinct(c.aliasDomains, n);
    }
  }

  /** With disciplined labels the hosts of every name carry the same address sequence. */
  lemma {:induction false} DisciplinedLabelsAgree(cs: seq<Info>, settings: Nginx.Settings, ng: seq<Nginx.Host>,
                                                  ha: seq<HAProxy.Host>, n: string)
    requires Disciplined(cs)
    requires Nginx.HostsOf(cs, settings, ng) && HAProxy.HostsOf(cs, ha)
    ensures AgreeOn(ng, ha, n)
  {
    DisciplinedIsBalanced(cs, n);
    RoutingAgreesExactly(cs, settings, ng, ha, n);
  }

  /** Every server of nginx's host k serves n in HAProxy. */
  ghost predicate AllServe(cs: seq<Info>, k: string, n: string) {
    forall c :: c in cs && HasAddress(c) && EffectiveDomain(c) == k ==> HAProxy.Weight(c, n) > 0
  }

  /** Then HAProxy has at least as many addresses for n, and more when another domain serves n. */
  lemma {:induction false} MoreAddresses(cs: seq<Info>, k: string, n: string)
    requires AllServe(cs, k, n)
    ensures |ProxyAddresses(cs, n)| >= |NginxAddresses(cs, k)|
    ensures (exists d :: d in cs && HAProxy.Weight(d, n) > 0 && EffectiveDomain(d) != k) ==>
            |ProxyAddresses(cs, n)| > |NginxAddresses(cs, k)|
  {
    if cs != [] {
      var init, c := cs[..|cs| - 1], Last(cs);
      assert cs == init + [c] && c in cs;
      assert AllServe(init, k, n) by {
        assert forall d :: d in init ==> d in cs;
      }
      MoreAddresses(init, k, n);
      ProxyAddressesStep(init, c, n);
      NginxAddressesStep(init, c, k);
    }
  }

  /** Two domains that share an alias are routed differently: HAProxy sends the alias to both
      containers, each nginx host that lists it only to its own. This takes distinct addresses, or
      a domain all of whose containers declare the alias. */
  lemma {:induction false} SharedAliasDisagrees(cs: seq<Info>, c: Info, d: Info, settings: Nginx.Settings,
                                                ng: seq<Nginx.Host>, ha: seq<HAProxy.Host>, n: string)
    requires Nginx.HostsOf(cs, settings, ng) && HAProxy.HostsOf(cs, ha)
    requires DistinctAddresses(cs) || AllServe(cs, EffectiveDomain(c), n)
    requires c in cs && d in cs && HAProxy.Accepts(c) && HAProxy.Accepts(d)
    requires EffectiveDomain(c) != EffectiveDomain(d) && n in c.aliasDomains && n in d.aliasDomains
    ensures !AgreeOn(ng, ha, n)
  {
    ListsMeaning(cs, EffectiveDomain(c), n);
    CountPositive(d.aliasDomains, n);
    assert HAProxy.Weight(d, n) > 0;
    assert Listed(cs, EffectiveDomain(c), n);
    if DistinctAddresses(cs) {
      RoutingAgreesExactly(cs, settings, ng, ha, n);
    } else {
      MoreAddresses(cs, EffectiveDomain(c), n);
      if AgreeOn(ng, ha, n) {
        AgreementGivesAddresses(cs, settings, ng, ha, n);
      }
    }
  }
}
