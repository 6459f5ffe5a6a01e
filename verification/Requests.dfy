/** Where a request goes. HAProxy tests its acl lines on a prefix of the Host header and takes the
    first use_backend line that applies, in the order of the hosts, which is a map's iteration
    order; nginx compares server names as a whole. */
module Requests {
  import opened Wrappers
  import opened Text
  import opened Lists
  import opened Containers
  import opened HAProxy
  import opened HAProxyTemplate
  import Nginx
  import Routing

  predicate Holds(c: Criterion, host: string, path: string) {
    match c
    case HostBeg(domain) => domain <= host
    case PathBeg(prefix) => prefix <= path
  }

  /** Acl lines of one name are alternatives. */
  predicate AclHolds(lines: seq<Line>, acl: string, host: string, path: string) {
    exists l :: l in lines && l.Acl? && l.name == acl && Holds(l.criterion, host, path)
  }

  /** The target of the first use_backend line of `lines` that applies, in a frontend that has
      all the acl lines of `frontend`. */
  function FirstUse(lines: seq<Line>, frontend: seq<Line>, host: string, path: string): Option<string> {
    if lines == [] then
      None
    else
      var earlier, l := FirstUse(lines[..|lines| - 1], frontend, host, path), Last(lines);
      if earlier.Some? then earlier
      else if l.UseBackend? && AclHolds(frontend, l.acl, host, path) then Some(l.target)
      else None
  }

  /** The backend that the emitted frontend picks for a request, if it picks one. */
  function Pick(hosts: seq<Host>, host: string, path: string): Option<string> {
    if Rooted(hosts) then FirstUse(Frontend(hosts), Frontend(hosts), host, path) else None
  }

  /** The request goes to the backend section of host g. */
  ghost predicate Picks(hosts: seq<Host>, g: Host, host: string, path: string) {
    g in hosts && g.contextRoot.Some? && Pick(hosts, host, path) == Some(BackendName(g))
  }

  // ---- The first host that is hit ----

  /** The test of some host with that acl name holds. */
  ghost predicate Hit(hosts: seq<Host>, acl: string, host: string, path: string)
    requires Rooted(hosts)
  {
    exists i :: 0 <= i < |hosts| && AclName(hosts[i]) == acl && Holds(Test(hosts[i]), host, path)
  }

  lemma {:induction false} AclStep(lines: seq<Line>, h: Host, acl: string, host: string, path: string)
    requires h.contextRoot.Some?
    ensures AclHolds(lines + FrontendLines(h), acl, host, path) <==>
            AclHolds(lines, acl, host, path) || (AclName(h) == acl && Holds(Test(h), host, path))
  {
    var own := Acl(AclName(h), Test(h));
    assert FrontendLines(h)[0] == own;
    if AclName(h) == acl && Holds(Test(h), host, path) {
      assert own in lines + FrontendLines(h);
    }
  }

  lemma {:induction false} HitStep(hosts: seq<Host>, h: Host, acl: string, host: string, path: string)
    requires Rooted(hosts) && h.contextRoot.Some?
    ensures Hit(hosts + [h], acl, host, path) <==>
            Hit(hosts, acl, host, path) || (AclName(h) == acl && Holds(Test(h), host, path))
  {
    var more := hosts + [h];
    if Hit(hosts, acl, host, path) {
      var i :| 0 <= i < |hosts| && AclName(hosts[i]) == acl && Holds(Test(hosts[i]), host, path);
      assert more[i] == hosts[i];
    }
    if AclName(h) == acl && Holds(Test(h), host, path) {
      assert more[|hosts|] == h;
    }
  }

  lemma {:induction false} AclIsHit(hosts: seq<Host>, acl: string, host: string, path: string)
    requires Rooted(hosts)
    ensures AclHolds(Frontend(hosts), acl, host, path) <==> Hit(hosts, acl, host, path)
  {
    if hosts != [] {
      var init, h := hosts[..|hosts| - 1], Last(hosts);
      AclIsHit(init, acl, host, path);
      AclStep(Frontend(init), h, acl, host, path);
      HitStep(init, h, acl, host, path);
      assert hosts == init + [h];
    }
  }

  lemma {:induction false} UseOfHost(lines: seq<Line>, h: Host, frontend: seq<Line>, host: string, path: string)
    requires h.contextRoot.Some?
    ensures FirstUse(lines + FrontendLines(h), frontend, host, path)
         == if FirstUse(lines, frontend, host, path).Some? then FirstUse(lines, frontend, host, path)
            else if AclHolds(frontend, AclName(h), host, path) then Some(BackendName(h))
            else None
  {
    var acl, use := Acl(AclName(h), Test(h)), UseBackend(BackendName(h), AclName(h));
    assert lines + FrontendLines(h) == (lines + [acl]) + [use];
    assert ((lines + [acl]) + [use])[..|lines| + 1] == lines + [acl] && (lines + [acl])[..|lines|] == lines;
  }

  /** The first host that is hit. */
  ghost function FirstHit(hosts: seq<Host>, all: seq<Host>, host: string, path: string): Option<Host>
    requires Rooted(hosts) && Rooted(all)
  {
    if hosts == [] then
      None
    else
      var earlier := FirstHit(hosts[..|hosts| - 1], all, host, path);
      if earlier.Some? then earlier
      else if Hit(all, AclName(Last(hosts)), host, path) then Some(Last(hosts))
      else None
  }

  lemma {:induction false} FirstHitIsHit(hosts: seq<Host>, all: seq<Host>, host: string, path: string)
    requires Rooted(hosts) && Rooted(all) && FirstHit(hosts, all, host, path).Some?
    ensures var h := FirstHit(hosts, all, host, path).value;
            h in hosts && h.contextRoot.Some? && Hit(all, AclName(h), host, path)
  {
    if FirstHit(hosts[..|hosts| - 1], all, host, path).Some? {
      FirstHitIsHit(hosts[..|hosts| - 1], all, host, path);
    }
  }

  lemma {:induction false} HitIsFound(hosts: seq<Host>, all: seq<Host>, host: string, path: string, i: nat)
    requires Rooted(hosts) && Rooted(all) && i < |hosts| && Hit(all, AclName(hosts[i]), host, path)
    ensures FirstHit(hosts, all, host, path).Some?
  {
    if i < |hosts| - 1 {
      HitIsFound(hosts[..|hosts| - 1], all, host, path, i);
    }
  }

  lemma {:induction false} FirstComesFirst(hosts: seq<Host>, all: seq<Host>, host: string, path: string)
    requires Rooted(hosts) && Rooted(all) && hosts != [] && Hit(all, AclName(hosts[0]), host, path)
    ensures FirstHit(hosts, all, host, path) == Some(hosts[0])
  {
    if |hosts| > 1 {
      FirstComesFirst(hosts[..|hosts| - 1], all, host, path);
    } else {
      assert FirstHit(hosts[..0], all, host, path) == None;
    }
  }

  /** The use_backend lines pick the backend of that host. */
  lemma {:induction false} UseIsFirstHit(hosts: seq<Host>, all: seq<Host>, host: string, path: string)
    requires Rooted(hosts) && Rooted(all)
    ensures match FirstHit(hosts, all, host, path)
            case Some(h) => h.contextRoot.Some?
                            && FirstUse(Frontend(hosts), Frontend(all), host, path) == Some(BackendName(h))
            case None => FirstUse(Frontend(hosts), Frontend(all), host, path) == None
  {
    if hosts != [] {
      var init, h := hosts[..|hosts| - 1], Last(hosts);
      UseIsFirstHit(init, all, host, path);
      UseOfHost(Frontend(init), h, Frontend(all), host, path);
      AclIsHit(all, AclName(h), host, path);
    }
  }

  // ---- The generated hosts ----

  predicate Served(cs: seq<Info>, n: string) {
    Upstreams(cs, n) != []
  }

  function AclOf(cs: seq<Info>, k: string): string {
    var root := FinalRoot(cs, Accepts, k);
    if root.path != "" then "url" + root.name else "is_" + Replace(k, '.', '_')
  }

  function TestOf(cs: seq<Info>, k: string): Criterion {
    var root := FinalRoot(cs, Accepts, k);
    if root.path != "" then PathBeg(root.path) else HostBeg(k)
  }

  /** The use_backend line of name k applies: the test of a served name with its acl holds. */
  ghost predicate Takes(cs: seq<Info>, k: string, host: string, path: string) {
    exists l :: Served(cs, l) && AclOf(cs, l) == AclOf(cs, k) && Holds(TestOf(cs, l), host, path)
  }

  /** The emitted lines of a host are those of its name. */
  ghost predicate OfLabels(cs: seq<Info>, h: Host) {
    && h.contextRoot.Some? && Served(cs, h.domain)
    && AclName(h) == AclOf(cs, h.domain) && Test(h) == TestOf(cs, h.domain) && BackendName(h) == BackendOf(cs, h.domain)
  }

  lemma {:induction false} GeneratedOfLabels(cs: seq<Info>, hosts: seq<Host>)
    requires HostsOf(cs, hosts)
    ensures Rooted(hosts) && forall h :: h in hosts ==> OfLabels(cs, h)
  {
    forall h | h in hosts ensures OfLabels(cs, h) {
      var i :| 0 <= i < |hosts| && hosts[i] == h;
      EmittedBackend(cs, hosts, i);
      assert Domains(hosts)[i] == h.domain;
      assert h == HostFor(cs, h.domain);
    }
  }

  lemma {:induction false} ServedIndex(cs: seq<Info>, hosts: seq<Host>, n: string) returns (i: nat)
    requires HostsOf(cs, hosts) && Served(cs, n)
    ensures i < |hosts| && hosts[i].domain == n
  {
    assert n in Domains(hosts);
    i :| 0 <= i < |hosts| && Domains(hosts)[i] == n;
  }

  lemma {:induction false} HitIsTakes(cs: seq<Info>, hosts: seq<Host>, k: string, host: string, path: string)
    requires HostsOf(cs, hosts) && Rooted(hosts)
    ensures Hit(hosts, AclOf(cs, k), host, path) <==> Takes(cs, k, host, path)
  {
    GeneratedOfLabels(cs, hosts);
    if l :| Served(cs, l) && AclOf(cs, l) == AclOf(cs, k) && Holds(TestOf(cs, l), host, path) {
      var i := ServedIndex(cs, hosts, l);
      assert OfLabels(cs, hosts[i]);
    }
    if i :| 0 <= i < |hosts| && AclName(hosts[i]) == AclOf(cs, k) && Holds(Test(hosts[i]), host, path) {
      assert OfLabels(cs, hosts[i]);
    }
  }

  /** A request is sent to some backend exactly when the test of a served name holds: the name is
      a prefix of its host, or the name's context root one of its path. */
  lemma {:induction false} PickedExactly(cs: seq<Info>, hosts: seq<Host>, host: string, path: string)
    requires HostsOf(cs, hosts)
    ensures Pick(hosts, host, path).Some? <==> exists m :: Served(cs, m) && Holds(TestOf(cs, m), host, path)
  {
    GeneratedOfLabels(cs, hosts);
    UseIsFirstHit(hosts, hosts, host, path);
    if Pick(hosts, host, path).Some? {
      var m := PickedTakes(cs, hosts, host, path);
    }
    if m :| Served(cs, m) && Holds(TestOf(cs, m), host, path) {
      var i := ServedIndex(cs, hosts, m);
      assert OfLabels(cs, hosts[i]);
      HitIsFound(hosts, hosts, host, path, i);
    }
  }

  /** The picked backend is that of a served name whose line applies. */
  lemma {:induction false} PickedTakes(cs: seq<Info>, hosts: seq<Host>, host: string, path: string) returns (m: string)
    requires HostsOf(cs, hosts) && Pick(hosts, host, path).Some?
    ensures Served(cs, m) && Takes(cs, m, host, path) && Pick(hosts, host, path) == Some(BackendOf(cs, m))
  {
    GeneratedOfLabels(cs, hosts);
    UseIsFirstHit(hosts, hosts, host, path);
    FirstHitIsHit(hosts, hosts, host, path);
    var h := FirstHit(hosts, hosts, host, path).value;
    m := h.domain;
    assert OfLabels(cs, h);
    HitIsTakes(cs, hosts, m, host, path);
  }

  /** Any host can come first: the iteration order of a map is arbitrary. */
  lemma {:induction false} HostFirst(cs: seq<Info>, hosts: seq<Host>, i: nat) returns (order: seq<Host>)
    requires HostsOf(cs, hosts) && i < |hosts|
    ensures HostsOf(cs, order) && order != [] && order[0] == hosts[i]
  {
    order := MovedFirst(hosts, i);
    DomainsMoved(hosts, i);
    MovedDistinct(Domains(hosts), i);
    forall k ensures k in Domains(order) <==> k in Domains(hosts) {
      MovedMembers(Domains(hosts), i, k);
    }
    forall h | h in order ensures h in hosts {
      MovedMembers(hosts, i, h);
    }
    OtherOrder(cs, hosts, order);
  }

  lemma {:induction false} DomainsMoved(hosts: seq<Host>, i: nat)
    requires i < |hosts|
    ensures Domains(MovedFirst(hosts, i)) == MovedFirst(Domains(hosts), i)
  {
  }

  lemma {:induction false} OtherOrder(cs: seq<Info>, hosts: seq<Host>, order: seq<Host>)
    requires HostsOf(cs, hosts) && Distinct(Domains(order)) && forall h :: h in order ==> h in hosts
    requires forall k :: k in Domains(order) <==> k in Domains(hosts)
    ensures HostsOf(cs, order)
  {
  }

  /** Some order sends a request to the backend of any served name whose line applies. */
  lemma {:induction false} TakenFirst(cs: seq<Info>, hosts: seq<Host>, m: string, host: string, path: string)
    returns (order: seq<Host>)
    requires HostsOf(cs, hosts) && Served(cs, m) && Takes(cs, m, host, path)
    ensures HostsOf(cs, order) && Pick(order, host, path) == Some(BackendOf(cs, m))
    ensures order != [] && order[0].domain == m && Picks(order, order[0], host, path)
  {
    var i := ServedIndex(cs, hosts, m);
    order := HostFirst(cs, hosts, i);
    GeneratedOfLabels(cs, order);
    assert OfLabels(cs, order[0]);
    HitIsTakes(cs, order, m, host, path);
    FirstComesFirst(order, order, host, path);
    UseIsFirstHit(order, order, host, path);
  }

  /** Name m can take a request that is for name n: its line applies too, or it has n's backend. */
  ghost predicate Disturbs(cs: seq<Info>, m: string, n: string, host: string, path: string) {
    Takes(cs, m, host, path) || Clash(cs, m, n) || Clash(cs, n, m)
  }

  /** Every order of the hosts sends a request that passes the test of name n to the host of n, and
      to no other, exactly when no other served name's line applies and none shares n's backend. */
  lemma {:induction false} OwnHostExactly(cs: seq<Info>, hosts: seq<Host>, n: string, host: string, path: string)
    requires HostsOf(cs, hosts) && Served(cs, n) && Holds(TestOf(cs, n), host, path)
    ensures (forall order, g :: HostsOf(cs, order) && Picks(order, g, host, path) ==> g.domain == n) <==>
            (forall m :: Served(cs, m) && m != n ==> !Disturbs(cs, m, n, host, path))
  {
    if forall m :: Served(cs, m) && m != n ==> !Disturbs(cs, m, n, host, path) {
      forall order, g | HostsOf(cs, order) && Picks(order, g, host, path) ensures g.domain == n {
        var m := PickedTakes(cs, order, host, path);
        GeneratedOfLabels(cs, order);
        assert OfLabels(cs, g) && (m != n ==> !Disturbs(cs, m, n, host, path));
        ClashMeaning(cs, g.domain, n);
      }
    }
    if m :| Served(cs, m) && m != n && Disturbs(cs, m, n, host, path) {
      var order, g := Disturbed(cs, hosts, m, n, host, path);
    }
  }

  lemma {:induction false} Disturbed(cs: seq<Info>, hosts: seq<Host>, m: string, n: string, host: string, path: string)
    returns (order: seq<Host>, g: Host)
    requires HostsOf(cs, hosts) && Served(cs, n) && Holds(TestOf(cs, n), host, path)
    requires Served(cs, m) && m != n && Disturbs(cs, m, n, host, path)
    ensures HostsOf(cs, order) && Picks(order, g, host, path) && g.domain == m
  {
    if Takes(cs, m, host, path) {
      order := TakenFirst(cs, hosts, m, host, path);
      g := order[0];
    } else {
      ClashMeaning(cs, m, n);
      order := TakenFirst(cs, hosts, n, host, path);
      GeneratedOfLabels(cs, order);
      var i := ServedIndex(cs, order, m);
      g := order[i];
      assert OfLabels(cs, g);
    }
  }

  // ---- Without context roots ----

  ghost predicate NoContextRoots(cs: seq<Info>) {
    forall c :: c in cs ==> c.contextRoot == ""
  }

  lemma {:induction false} PlainName(cs: seq<Info>, k: string)
    requires NoContextRoots(cs)
    ensures FinalRoot(cs, Accepts, k).path == ""
  {
    var writers := RootWriters(cs, Accepts, k);
    RootWritersOf(cs, k);
    if writers != [] {
      assert Last(writers) in writers;
    }
  }

  /** A plain name's line applies to the prefixes of its backend name. */
  lemma {:induction false} PlainTakes(cs: seq<Info>, m: string, host: string, path: string)
    requires NoContextRoots(cs)
    ensures Takes(cs, m, host, path) <==> exists l :: Served(cs, l) && Confusable(l, m) && l <= host
  {
    PlainName(cs, m);
    forall l
      ensures AclOf(cs, l) == AclOf(cs, m) && Holds(TestOf(cs, l), host, path) <==> Confusable(l, m) && l <= host
    {
      PlainName(cs, l);
      ReplaceConfuses(l, m);
      Cancel("is_", Replace(l, '.', '_'), Replace(m, '.', '_'));
    }
  }

  lemma {:induction false} ConfusableSymmetric(a: string, b: string)
    ensures Confusable(a, b) == Confusable(b, a) && Confusable(a, a)
  {
  }

  /** Every order of the hosts sends requests for a served name to its own host exactly when no
      other served name is a prefix of it or differs from it in dots and underscores only. */
  lemma {:induction false} OwnBackendExactly(cs: seq<Info>, hosts: seq<Host>, n: string, path: string)
    requires HostsOf(cs, hosts) && NoContextRoots(cs) && Served(cs, n)
    ensures (forall order, g :: HostsOf(cs, order) && Picks(order, g, n, path) ==> g.domain == n) <==>
            (forall m :: Served(cs, m) && m != n ==> !(m <= n) && !Confusable(m, n))
  {
    PlainName(cs, n);
    OwnHostExactly(cs, hosts, n, n, path);
    if forall m :: Served(cs, m) && m != n ==> !(m <= n) && !Confusable(m, n) {
      forall m | Served(cs, m) && m != n ensures !Disturbs(cs, m, n, n, path) {
        PlainUndisturbed(cs, m, n, path);
      }
    }
    forall m | Served(cs, m) && m != n && (m <= n || Confusable(m, n)) ensures Disturbs(cs, m, n, n, path) {
      PlainDisturbs(cs, m, n, path);
    }
  }

  lemma {:induction false} PlainClash(cs: seq<Info>, m: string, n: string)
    requires NoContextRoots(cs)
    ensures Clash(cs, m, n) || Clash(cs, n, m) <==> Confusable(m, n)
  {
    PlainName(cs, m);
    PlainName(cs, n);
    ConfusableSymmetric(m, n);
  }

  lemma {:induction false} PlainDisturbs(cs: seq<Info>, m: string, n: string, path: string)
    requires NoContextRoots(cs) && Served(cs, m) && (m <= n || Confusable(m, n))
    ensures Disturbs(cs, m, n, n, path)
  {
    PlainClash(cs, m, n);
    PlainTakes(cs, m, n, path);
    ConfusableSymmetric(m, m);
  }

  lemma {:induction false} PlainUndisturbed(cs: seq<Info>, m: string, n: string, path: string)
    requires NoContextRoots(cs) && Served(cs, m) && m != n
    requires forall l :: Served(cs, l) && l != n ==> !(l <= n) && !Confusable(l, n)
    ensures !Disturbs(cs, m, n, n, path)
  {
    PlainClash(cs, m, n);
    PlainTakes(cs, m, n, path);
    ConfusableSymmetric(m, n);
  }

  /** The backend picked for a served name is that of a served prefix of it. */
  lemma {:induction false} PickedPrefix(cs: seq<Info>, hosts: seq<Host>, n: string, path: string)
    requires HostsOf(cs, hosts) && NoContextRoots(cs) && Served(cs, n)
    ensures exists m :: Served(cs, m) && m <= n && Pick(hosts, n, path) == Some(Replace(m, '.', '_'))
  {
    PlainName(cs, n);
    PickedExactly(cs, hosts, n, path);
    var k := PickedTakes(cs, hosts, n, path);
    PlainName(cs, k);
    PlainTakes(cs, k, n, path);
    var m :| Served(cs, m) && Confusable(m, k) && m <= n;
    ReplaceConfuses(m, k);
  }

  // ---- Both backends ----

  /** Requests for n reach the same servers: HAProxy picks a backend, and the hosts of that backend
      have the servers of every nginx host that lists n. */
  ghost predicate SentAlike(ng: seq<Nginx.Host>, ha: seq<Host>, n: string, path: string) {
    && Pick(ha, n, path).Some?
    && (forall h, g :: h in ng && n in h.serverNames && Picks(ha, g, n, path) ==>
          h.upstream.servers == Apply(g.upstreams, Routing.AddrOf))
  }

  /** Some container serves both names. */
  ghost predicate SharedServer(cs: seq<Info>, m: string, n: string) {
    exists c :: c in cs && Weight(c, m) > 0 && Weight(c, n) > 0
  }

  /** No two served names have the same backend name. */
  ghost predicate DistinctBackends(cs: seq<Info>) {
    forall k, l :: Served(cs, k) && Served(cs, l) && k != l ==> !Confusable(k, l)
  }

  /** With disciplined labels a served name has the servers of one domain. */
  lemma {:induction false} OneDomain(cs: seq<Info>, n: string) returns (k: string)
    requires Routing.Disciplined(cs) && Served(cs, n)
    ensures Routing.Listed(cs, k, n) && Routing.Balanced(cs, n, k)
    ensures Routing.ProxyAddresses(cs, n) == Routing.NginxAddresses(cs, k)
  {
    Routing.ProxyNameIsListed(cs, n);
    k :| Routing.Listed(cs, k, n);
    Routing.DisciplinedIsBalanced(cs, n);
    Routing.BalancedAddresses(cs, n, k);
  }

  /** Two served names have the servers of the same domain exactly when they share a container. */
  lemma {:induction false} SharedIsSameDomain(cs: seq<Info>, m: string, k: string, n: string, l: string)
    requires Served(cs, m) && Routing.Balanced(cs, m, k) && Routing.Balanced(cs, n, l)
    ensures SharedServer(cs, m, n) <==> k == l
  {
    UpstreamsNonEmpty(cs, m);
    var c :| c in cs && Weight(c, m) > 0;
    assert HasAddress(c) && EffectiveDomain(c) == k;
  }

  lemma {:induction false} PickedBackend(cs: seq<Info>, ha: seq<Host>, g: Host, n: string, path: string)
    requires HostsOf(cs, ha) && NoContextRoots(cs) && DistinctBackends(cs) && Served(cs, n)
    requires Picks(ha, g, n, path)
    ensures Served(cs, g.domain) && g.domain <= n
  {
    GeneratedOfLabels(cs, ha);
    assert OfLabels(cs, g);
    PlainName(cs, g.domain);
    PickedPrefix(cs, ha, n, path);
    var m :| Served(cs, m) && m <= n && Pick(ha, n, path) == Some(Replace(m, '.', '_'));
    ReplaceConfuses(m, g.domain);
  }

  /** With disciplined labels and no context roots, requests for a served name reach the same
      servers in both backends under every order, if every served prefix of the name shares a
      container with it; when no two containers share an address, only then. */
  lemma {:induction false} SentAlikeExactly(cs: seq<Info>, settings: Nginx.Settings, ng: seq<Nginx.Host>,
                                            ha: seq<Host>, n: string, path: string)
    requires Routing.Disciplined(cs) && NoContextRoots(cs) && DistinctBackends(cs) && Served(cs, n)
    requires Nginx.HostsOf(cs, settings, ng) && HostsOf(cs, ha)
    ensures (forall m :: Served(cs, m) && m <= n ==> SharedServer(cs, m, n)) ==>
            forall order :: HostsOf(cs, order) ==> SentAlike(ng, order, n, path)
    ensures Routing.DistinctAddresses(cs) ==>
            ((forall order :: HostsOf(cs, order) ==> SentAlike(ng, order, n, path)) <==>
             (forall m :: Served(cs, m) && m <= n ==> SharedServer(cs, m, n)))
  {
    if forall m :: Served(cs, m) && m <= n ==> SharedServer(cs, m, n) {
      forall order | HostsOf(cs, order) ensures SentAlike(ng, order, n, path) {
        SharedPrefixesSuffice(cs, settings, ng, order, n, path);
      }
    }
    if Routing.DistinctAddresses(cs) && forall order :: HostsOf(cs, order) ==> SentAlike(ng, order, n, path) {
      forall m | Served(cs, m) && m <= n ensures SharedServer(cs, m, n) {
        ForeignPrefixMisroutes(cs, settings, ng, ha, m, n, path);
      }
    }
  }

  lemma {:induction false} SharedPrefixesSuffice(cs: seq<Info>, settings: Nginx.Settings, ng: seq<Nginx.Host>,
                                                 ha: seq<Host>, n: string, path: string)
    requires Routing.Disciplined(cs) && NoContextRoots(cs) && DistinctBackends(cs) && Served(cs, n)
    requires Nginx.HostsOf(cs, settings, ng) && HostsOf(cs, ha)
    requires forall m :: Served(cs, m) && m <= n ==> SharedServer(cs, m, n)
    ensures SentAlike(ng, ha, n, path)
  {
    PickedPrefix(cs, ha, n, path);
    forall h, g | h in ng && n in h.serverNames && Picks(ha, g, n, path)
      ensures h.upstream.servers == Apply(g.upstreams, Routing.AddrOf)
    {
      var l := h.upstream.name;
      Routing.NginxHostMeaning(cs, settings, ng, h, n);
      Routing.DisciplinedIsBalanced(cs, n);
      PickedBackend(cs, ha, g, n, path);
      Routing.ProxyHostMeaning(cs, ha, g);
      var k := OneDomain(cs, g.domain);
      SharedIsSameDomain(cs, g.domain, k, n, l);
    }
  }

  /** A served prefix of another domain takes the requests for n under some order. */
  lemma {:induction false} ForeignPrefixMisroutes(cs: seq<Info>, settings: Nginx.Settings, ng: seq<Nginx.Host>,
                                                  ha: seq<Host>, m: string, n: string, path: string)
    requires Routing.Disciplined(cs) && NoContextRoots(cs) && Served(cs, n) && Routing.DistinctAddresses(cs)
    requires Nginx.HostsOf(cs, settings, ng) && HostsOf(cs, ha) && Served(cs, m) && m <= n
    ensures !SharedServer(cs, m, n) ==> exists order :: HostsOf(cs, order) && !SentAlike(ng, order, n, path)
  {
    PlainTakes(cs, m, n, path);
    ConfusableSymmetric(m, m);
    var order := TakenFirst(cs, ha, m, n, path);
    if SentAlike(ng, order, n, path) {
      var k := OneDomain(cs, n);
      Routing.NginxHostOf(cs, settings, ng, k);
      var h :| h in ng && h.upstream.name == k;
      Routing.NginxHostMeaning(cs, settings, ng, h, n);
      Routing.ProxyHostMeaning(cs, order, order[0]);
      assert order[0] in order;
      Routing.EqualAddressesAreBalanced(cs, m, k);
      SharedIsSameDomain(cs, m, k, n, k);
    }
  }
}
