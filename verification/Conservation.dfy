/** What every emitted configuration keeps, whatever the container list and map order: nothing
    is lost or duplicated, and the templates can dereference every context root. */
module Conservation {
  import opened Lists
  import opened Containers
  import Nginx
  import HAProxy

  function TotalServers(hosts: seq<Nginx.Host>): nat {
    if hosts == [] then 0 else TotalServers(hosts[..|hosts| - 1]) + |Last(hosts).upstream.servers|
  }

  function TotalUpstreams(hosts: seq<HAProxy.Host>): nat {
    if hosts == [] then 0 else TotalUpstreams(hosts[..|hosts| - 1]) + |Last(hosts).upstreams|
  }

  /** One entry for its domain and one for each alias, over the accepted containers. */
  function EntriesDue(cs: seq<Info>): nat {
    if cs == [] then
      0
    else
      EntriesDue(cs[..|cs| - 1]) + if HAProxy.Accepts(Last(cs)) then 1 + |Last(cs).aliasDomains| else 0
  }

  // ---- nginx ----

  function AcceptedUnder(cs: seq<Info>, keys: seq<string>): nat {
    if keys == [] then 0 else AcceptedUnder(cs, keys[..|keys| - 1]) + |Nginx.Accepted(cs, Last(keys))|
  }

  lemma {:induction false} AcceptedUnderStep(cs: seq<Info>, c: Info, keys: seq<string>)
    ensures AcceptedUnder(cs + [c], keys)
         == AcceptedUnder(cs, keys) + if HasAddress(c) then Count(keys, EffectiveDomain(c)) else 0
  {
    if keys != [] {
      AcceptedUnderStep(cs, c, keys[..|keys| - 1]);
      FilteredGroupStep(cs, c, HasAddress, Last(keys));
    }
  }

  lemma {:induction false} AcceptedUnderNone(keys: seq<string>)
    ensures AcceptedUnder([], keys) == 0
  {
    if keys != [] {
      AcceptedUnderNone(keys[..|keys| - 1]);
    }
  }

  /** Distinct keys that cover all effective domains partition the accepted containers. */
  lemma {:induction false} KeysPartition(cs: seq<Info>, keys: seq<string>)
    requires Distinct(keys) && forall c :: c in cs && HasAddress(c) ==> EffectiveDomain(c) in keys
    ensures AcceptedUnder(cs, keys) == |Filter(cs, HasAddress)|
  {
    if cs == [] {
      AcceptedUnderNone(keys);
    } else {
      var init, c := cs[..|cs| - 1], Last(cs);
      assert cs == init + [c] && c in cs;
      KeysPartition(init, keys);
      AcceptedUnderStep(init, c, keys);
      CountDistinct(keys, EffectiveDomain(c));
    }
  }

  lemma {:induction false} ServersUnderNames(cs: seq<Info>, hosts: seq<Nginx.Host>)
    requires forall i :: 0 <= i < |hosts| ==>
      |hosts[i].upstream.servers| == |Nginx.Accepted(cs, hosts[i].upstream.name)|
    ensures TotalServers(hosts) == AcceptedUnder(cs, Nginx.Names(hosts))
  {
    if hosts != [] {
      var init, names := hosts[..|hosts| - 1], Nginx.Names(hosts);
      assert names[..|names| - 1] == Nginx.Names(init);
      ServersUnderNames(cs, init);
    }
  }

  lemma {:induction false} NamesCover(cs: seq<Info>, settings: Nginx.Settings, hosts: seq<Nginx.Host>)
    requires Nginx.HostsOf(cs, settings, hosts)
    ensures forall c :: c in cs && HasAddress(c) ==> EffectiveDomain(c) in Nginx.Names(hosts)
  {
    forall c | c in cs && HasAddress(c) ensures EffectiveDomain(c) in Nginx.Names(hosts) {
      var k := EffectiveDomain(c);
      GroupMembers(cs, k);
      FilterMembers(Group(cs, k), HasAddress, c);
    }
  }

  /** nginx: every accepted container is a server of exactly one host. */
  lemma {:induction false} ServersConserved(cs: seq<Info>, settings: Nginx.Settings, hosts: seq<Nginx.Host>)
    requires Nginx.HostsOf(cs, settings, hosts)
    ensures TotalServers(hosts) == |Filter(cs, HasAddress)|
  {
    forall i | 0 <= i < |hosts|
      ensures |hosts[i].upstream.servers| == |Nginx.Accepted(cs, hosts[i].upstream.name)|
    {
      assert hosts[i] in hosts;
      assert Nginx.IsHost(cs, settings, hosts[i]);
    }
    ServersUnderNames(cs, hosts);
    NamesCover(cs, settings, hosts);
    KeysPartition(cs, Nginx.Names(hosts));
  }

  // ---- HAProxy ----

  function UpstreamsUnder(cs: seq<Info>, keys: seq<string>): nat {
    if keys == [] then 0 else UpstreamsUnder(cs, keys[..|keys| - 1]) + |HAProxy.Upstreams(cs, Last(keys))|
  }

  function CountUnder(xs: seq<string>, keys: seq<string>): nat {
    if keys == [] then 0 else CountUnder(xs, keys[..|keys| - 1]) + Count(xs, Last(keys))
  }

  lemma {:induction false} CountUnderNone(keys: seq<string>)
    ensures CountUnder([], keys) == 0
  {
    if keys != [] {
      CountUnderNone(keys[..|keys| - 1]);
    }
  }

  lemma {:induction false} CountUnderStep(xs: seq<string>, x: string, keys: seq<string>)
    ensures CountUnder(xs + [x], keys) == CountUnder(xs, keys) + Count(keys, x)
  {
    if keys != [] {
      CountUnderStep(xs, x, keys[..|keys| - 1]);
      assert (xs + [x])[..|xs|] == xs;
    }
  }

  lemma {:induction false} CountUnderAll(xs: seq<string>, keys: seq<string>)
    requires Distinct(keys) && forall x :: x in xs ==> x in keys
    ensures CountUnder(xs, keys) == |xs|
  {
    if xs == [] {
      CountUnderNone(keys);
    } else {
      assert xs == xs[..|xs| - 1] + [Last(xs)] && Last(xs) in xs;
      CountUnderAll(xs[..|xs| - 1], keys);
      CountUnderStep(xs[..|xs| - 1], Last(xs), keys);
      CountDistinct(keys, Last(xs));
    }
  }

  lemma {:induction false} UpstreamsUnderStep(cs: seq<Info>, c: Info, keys: seq<string>)
    ensures UpstreamsUnder(cs + [c], keys)
         == UpstreamsUnder(cs, keys)
          + if HAProxy.Accepts(c) then CountUnder(c.aliasDomains, keys) + Count(keys, EffectiveDomain(c)) else 0
  {
    if keys != [] {
      UpstreamsUnderStep(cs, c, keys[..|keys| - 1]);
      assert (cs + [c])[..|cs|] == cs;
    }
  }

  lemma {:induction false} UpstreamsUnderNone(keys: seq<string>)
    ensures UpstreamsUnder([], keys) == 0
  {
    if keys != [] {
      UpstreamsUnderNone(keys[..|keys| - 1]);
    }
  }

  lemma {:induction false} EntriesUnderKeys(cs: seq<Info>, keys: seq<string>)
    requires Distinct(keys) && forall c, k :: c in cs && HAProxy.Weight(c, k) > 0 ==> k in keys
    ensures UpstreamsUnder(cs, keys) == EntriesDue(cs)
  {
    if cs == [] {
      UpstreamsUnderNone(keys);
    } else {
      var init, c := cs[..|cs| - 1], Last(cs);
      assert cs == init + [c] && c in cs;
      EntriesUnderKeys(init, keys);
      UpstreamsUnderStep(init, c, keys);
      if HAProxy.Accepts(c) {
        assert HAProxy.Weight(c, EffectiveDomain(c)) > 0;
        CountDistinct(keys, EffectiveDomain(c));
        forall a | a in c.aliasDomains ensures a in keys {
          CountPositive(c.aliasDomains, a);
          assert HAProxy.Weight(c, a) > 0;
        }
        CountUnderAll(c.aliasDomains, keys);
      }
    }
  }

  lemma {:induction false} UpstreamsUnderDomains(cs: seq<Info>, hosts: seq<HAProxy.Host>)
    requires forall h :: h in hosts ==> h.upstreams == HAProxy.Upstreams(cs, h.domain)
    ensures TotalUpstreams(hosts) == UpstreamsUnder(cs, HAProxy.Domains(hosts))
  {
    if hosts != [] {
      var init, h := hosts[..|hosts| - 1], Last(hosts);
      assert hosts == init + [h] && h in hosts;
      assert HAProxy.Domains(hosts) == HAProxy.Domains(init) + [h.domain];
      UpstreamsUnderDomains(cs, init);
    }
  }

  /** HAProxy: every accepted container has one entry for its domain and one for each alias. */
  lemma {:induction false} UpstreamsConserved(cs: seq<Info>, hosts: seq<HAProxy.Host>)
    requires HAProxy.HostsOf(cs, hosts)
    ensures TotalUpstreams(hosts) == EntriesDue(cs)
  {
    forall h | h in hosts ensures h.upstreams == HAProxy.Upstreams(cs, h.domain) {
      assert h == HAProxy.HostFor(cs, h.domain);
    }
    UpstreamsUnderDomains(cs, hosts);
    forall c, k | c in cs && HAProxy.Weight(c, k) > 0 ensures k in HAProxy.Domains(hosts) {
      HAProxy.UpstreamsNonEmpty(cs, k);
    }
    EntriesUnderKeys(cs, HAProxy.Domains(hosts));
  }

  // ---- Context roots ----

  /** Every nginx host has a context root and a server, and its first name is its own key. */
  lemma {:induction false} NginxHostsWellFormed(cs: seq<Info>, settings: Nginx.Settings, hosts: seq<Nginx.Host>)
    requires Nginx.HostsOf(cs, settings, hosts)
    ensures forall h :: h in hosts ==>
      && h.contextRoot.Some? && h.upstream.servers != []
      && h.serverNames != [] && h.serverNames[0] == h.upstream.name
  {
    forall h | h in hosts ensures h.contextRoot.Some? && h.upstream.servers != [] {
      var i :| 0 <= i < |hosts| && hosts[i] == h;
      assert Nginx.Names(hosts)[i] == h.upstream.name;
      GroupBelongsToRootWriters(cs, HasAddress, h.upstream.name);
    }
  }

  /** Every HAProxy host has a context root and an upstream. */
  lemma {:induction false} ProxyHostsWellFormed(cs: seq<Info>, hosts: seq<HAProxy.Host>)
    requires HAProxy.HostsOf(cs, hosts)
    ensures forall h :: h in hosts ==> h.contextRoot.Some? && h.upstreams != []
  {
    forall h | h in hosts ensures h.contextRoot.Some? && h.upstreams != [] {
      var i :| 0 <= i < |hosts| && hosts[i] == h;
      assert HAProxy.Domains(hosts)[i] == h.domain;
      UpstreamsNameRoots(cs, h.domain);
    }
  }

  lemma {:induction false} UpstreamsNameRoots(cs: seq<Info>, k: string)
    requires HAProxy.Upstreams(cs, k) != []
    ensures RootWriters(cs, HAProxy.Accepts, k) != []
  {
    var init, c := cs[..|cs| - 1], Last(cs);
    if HAProxy.Weight(c, k) > 0 {
      CountPositive(c.aliasDomains, k);
    } else {
      UpstreamsNameRoots(init, k);
    }
  }
}
