/** What both generators read of a container, and the grouping of a container list by
    effective domain that both of them compute. */
module Containers {
  import opened Wrappers
  import opened Text
  import opened Lists

  /** The address resolution of one container: over an overlay network or over published
      ports. No address means that the generator logs the problem and skips the container. */
  datatype Backend =
    | Overlay(network: string, address: Option<string>)
    | Published(address: Option<string>)

  /** The labels and settings of an inspected container, each already looked up.
      `interval` is None when the health check interval label is not a number. */
  datatype Info = Info(
    name: string,
    hostname: string,
    domain: string,
    contextRoot: string,
    contextRootRewrite: bool,
    ssl: bool,
    sslOnly: bool,
    sslBackend: bool,
    sslBackendTLSVerify: string,
    sslCert: string,
    sslCertKey: string,
    ipHash: bool,
    healthCheck: string,
    interval: Option<int>,
    balanceAlgorithm: string,
    backendOptions: seq<string>,
    websocketEndpoints: seq<string>,
    aliasDomains: seq<string>,
    backend: Backend)

  /** The answer of the Docker daemon to an inspect request. */
  datatype Inspection = Unavailable | Available(info: Info)

  datatype ContextRoot = ContextRoot(name: string, path: string)

  function RootOf(c: Info): ContextRoot {
    ContextRoot(Replace(c.contextRoot, '/', '_'), c.contextRoot)
  }

  /** The domain filter: a container with neither domain nor context root is not routed. */
  predicate Routable(c: Info) {
    c.domain != "" || c.contextRoot != ""
  }

  /** The key under which a container is grouped. */
  function EffectiveDomain(c: Info): string {
    if c.contextRoot != "" then
      RootOf(c).name
    else if c.hostname != c.domain && c.hostname != "" then
      c.hostname + "." + c.domain
    else
      c.domain
  }

  /** What the key of a container is, character by character: its context root with '_' for each
      '/', or its hostname, a dot and its domain, or its domain alone. */
  ghost predicate IsKey(c: Info, k: string) {
    if c.contextRoot != "" then
      |k| == |c.contextRoot|
      && forall i :: 0 <= i < |k| ==> k[i] == if c.contextRoot[i] == '/' then '_' else c.contextRoot[i]
    else if c.hostname != "" && c.hostname != c.domain then
      && |k| == |c.hostname| + 1 + |c.domain|
      && k[..|c.hostname|] == c.hostname && k[|c.hostname|] == '.' && k[|c.hostname| + 1..] == c.domain
    else
      k == c.domain
  }

  lemma {:induction false} KeyExactly(c: Info, k: string)
    ensures IsKey(c, k) <==> k == EffectiveDomain(c)
  {
    if IsKey(c, k) && c.contextRoot == "" && c.hostname != "" && c.hostname != c.domain {
      assert k == k[..|c.hostname|] + [k[|c.hostname|]] + k[|c.hostname| + 1..];
    }
  }

  predicate HasAddress(c: Info) {
    c.backend.address.Some?
  }

  function Address(c: Info): string {
    c.backend.address.GetOr("")
  }

  /** The inspected containers that pass the domain filter, in list order. */
  function Routed(cs: seq<Inspection>): seq<Info> {
    if cs == [] then
      []
    else
      var init, last := cs[..|cs| - 1], cs[|cs| - 1];
      if last.Available? && Routable(last.info) then Routed(init) + [last.info] else Routed(init)
  }

  /** The group-by: the containers of effective domain k, in list order. */
  function Group(cs: seq<Info>, k: string): seq<Info> {
    if cs == [] then
      []
    else
      var init, last := cs[..|cs| - 1], cs[|cs| - 1];
      if EffectiveDomain(last) == k then Group(init, k) + [last] else Group(init, k)
  }

  /** Container c sets the context root of host k: k is its effective domain, or one of its
      aliases once it is accepted. */
  predicate NamesRoot(c: Info, accepted: Info -> bool, k: string) {
    EffectiveDomain(c) == k || (accepted(c) && k in c.aliasDomains)
  }

  /** The containers that set the context root of host k, in list order. */
  function RootWriters(cs: seq<Info>, accepted: Info -> bool, k: string): seq<Info> {
    if cs == [] then
      []
    else
      var init, last := cs[..|cs| - 1], cs[|cs| - 1];
      if NamesRoot(last, accepted, k) then RootWriters(init, accepted, k) + [last] else RootWriters(init, accepted, k)
  }

  /** The context root that the last container to set it leaves for host k. */
  function FinalRoot(cs: seq<Info>, accepted: Info -> bool, k: string): ContextRoot {
    var writers := RootWriters(cs, accepted, k);
    if writers == [] then ContextRoot("", "") else RootOf(Last(writers))
  }

  /** The overlay networks of the accepted containers. */
  function OverlayNetworks(cs: seq<Info>, accepted: Info -> bool): set<string> {
    set c | c in cs && accepted(c) && c.backend.Overlay? :: c.backend.network
  }

  lemma {:induction false} RoutedStep(cs: seq<Inspection>, i: nat)
    requires i < |cs|
    ensures Routed(cs[..i + 1])
         == if cs[i].Available? && Routable(cs[i].info) then Routed(cs[..i]) + [cs[i].info] else Routed(cs[..i])
  {
    assert cs[..i + 1][..i] == cs[..i];
  }

  /** The routed containers are those inspected that have a domain or a context root. */
  lemma {:induction false} RoutedMembers(cs: seq<Inspection>)
    ensures forall c :: c in Routed(cs) <==> Available(c) in cs && (c.domain != "" || c.contextRoot != "")
  {
    if cs != [] {
      RoutedMembers(cs[..|cs| - 1]);
      assert cs == cs[..|cs| - 1] + [cs[|cs| - 1]];
    }
  }

  lemma {:induction false} GroupMembers(cs: seq<Info>, k: string)
    ensures forall c :: c in Group(cs, k) <==> c in cs && EffectiveDomain(c) == k
  {
    if cs != [] {
      GroupMembers(cs[..|cs| - 1], k);
    }
  }

  lemma {:induction false} GroupBelongsToRootWriters(cs: seq<Info>, accepted: Info -> bool, k: string)
    requires Group(cs, k) != []
    ensures RootWriters(cs, accepted, k) != []
  {
    if EffectiveDomain(cs[|cs| - 1]) != k {
      GroupBelongsToRootWriters(cs[..|cs| - 1], accepted, k);
    }
  }

  /** The context root of a name is that of the last container that names it. */
  lemma {:induction false} FinalWriter(before: seq<Info>, c: Info, after: seq<Info>, accepted: Info -> bool, k: string)
    requires NamesRoot(c, accepted, k) && forall d :: d in after ==> !NamesRoot(d, accepted, k)
    ensures FinalRoot(before + [c] + after, accepted, k) == RootOf(c)
  {
    var cs := before + [c] + after;
    if after == [] {
      assert cs[..|cs| - 1] == before;
    } else {
      assert cs[..|cs| - 1] == before + [c] + after[..|after| - 1];
      FinalWriter(before, c, after[..|after| - 1], accepted, k);
    }
  }

  lemma {:induction false} RootWritersMembers(cs: seq<Info>, accepted: Info -> bool, k: string)
    ensures forall c :: c in RootWriters(cs, accepted, k) <==>
                        c in cs && NamesRoot(c, accepted, k)
  {
    if cs != [] {
      RootWritersMembers(cs[..|cs| - 1], accepted, k);
    }
  }

  // ---- The tables that the generators' loops build ----

  predicate Always(c: Info) { true }

  function Rewrite(c: Info): bool { c.contextRootRewrite }

  function SslOnly(c: Info): bool { c.sslOnly }

  function SslBackend(c: Info): bool { c.sslBackend }

  lemma {:induction false} FilterAlways(cs: seq<Info>)
    ensures Filter(cs, Always) == cs
  {
    if cs != [] {
      FilterAlways(cs[..|cs| - 1]);
    }
  }

  /** m[k] is the value of the last container of effective domain k that satisfies g. */
  ghost predicate LastWinsAt<T>(m: map<string, T>, cs: seq<Info>, g: Info -> bool, f: Info -> T, k: string) {
    var xs := Filter(Group(cs, k), g);
    (k in m <==> xs != []) && (k in m ==> m[k] == f(Last(xs)))
  }

  ghost predicate LastWins<T(!new)>(m: map<string, T>, cs: seq<Info>, g: Info -> bool, f: Info -> T) {
    forall k :: LastWinsAt(m, cs, g, f, k)
  }

  /** m[k] is the value of the first container of effective domain k that satisfies g. */
  ghost predicate FirstWinsAt<T>(m: map<string, T>, cs: seq<Info>, g: Info -> bool, f: Info -> T, k: string) {
    var xs := Filter(Group(cs, k), g);
    (k in m <==> xs != []) && (k in m ==> m[k] == f(xs[0]))
  }

  ghost predicate FirstWins<T(!new)>(m: map<string, T>, cs: seq<Info>, g: Info -> bool, f: Info -> T) {
    forall k :: FirstWinsAt(m, cs, g, f, k)
  }

  /** m[k] lists the values of all containers of effective domain k that satisfy g. */
  ghost predicate AppendsAt<T>(m: map<string, seq<T>>, cs: seq<Info>, g: Info -> bool, f: Info -> seq<T>, k: string) {
    Entry(m, k) == Concat(Filter(Group(cs, k), g), f) && (k in m ==> m[k] != [])
  }

  ghost predicate Appends<T(!new)>(m: map<string, seq<T>>, cs: seq<Info>, g: Info -> bool, f: Info -> seq<T>) {
    forall k :: AppendsAt(m, cs, g, f, k)
  }

  /** m[k] is the context root of the last container that sets it. */
  ghost predicate RootTableAt(m: map<string, ContextRoot>, cs: seq<Info>, accepted: Info -> bool, k: string) {
    var ws := RootWriters(cs, accepted, k);
    (k in m <==> ws != []) && (k in m ==> m[k] == RootOf(Last(ws)))
  }

  ghost predicate RootTable(m: map<string, ContextRoot>, cs: seq<Info>, accepted: Info -> bool) {
    forall k :: RootTableAt(m, cs, accepted, k)
  }

  lemma {:induction false} GroupStep(cs: seq<Info>, c: Info, k: string)
    ensures Group(cs + [c], k) == if EffectiveDomain(c) == k then Group(cs, k) + [c] else Group(cs, k)
  {
    assert (cs + [c])[..|cs|] == cs;
  }

  lemma {:induction false} FilterStep<T>(xs: seq<T>, x: T, p: T -> bool)
    ensures Filter(xs + [x], p) == if p(x) then Filter(xs, p) + [x] else Filter(xs, p)
  {
    assert (xs + [x])[..|xs|] == xs;
  }

  lemma {:induction false} FilteredGroupStep(cs: seq<Info>, c: Info, g: Info -> bool, k: string)
    ensures Filter(Group(cs + [c], k), g)
         == if EffectiveDomain(c) == k && g(c) then Filter(Group(cs, k), g) + [c] else Filter(Group(cs, k), g)
  {
    GroupStep(cs, c, k);
    FilterStep(Group(cs, k), c, g);
  }

  lemma {:induction false} LastWinsStep<T(!new)>(m: map<string, T>, cs: seq<Info>, c: Info,
                                                 g: Info -> bool, f: Info -> T)
    requires LastWins(m, cs, g, f)
    ensures LastWins(if g(c) then m[EffectiveDomain(c) := f(c)] else m, cs + [c], g, f)
  {
    var m' := if g(c) then m[EffectiveDomain(c) := f(c)] else m;
    forall k ensures LastWinsAt(m', cs + [c], g, f, k) {
      assert LastWinsAt(m, cs, g, f, k);
      FilteredGroupStep(cs, c, g, k);
    }
  }

  /** The write m[domain] = v, made only under a condition. */
  method Overwrite<T(!new)>(m: map<string, T>, ghost cs: seq<Info>, c: Info, write: bool, v: T,
                            ghost g: Info -> bool, ghost f: Info -> T) returns (r: map<string, T>)
    requires LastWins(m, cs, g, f)
    requires write == g(c) && v == f(c)
    ensures LastWins(r, cs + [c], g, f)
  {
    LastWinsStep(m, cs, c, g, f);
    r := if write then m[EffectiveDomain(c) := v] else m;
  }

  /** The write m[domain] = v, made only under a condition and for a new key. */
  method KeepFirst<T(!new)>(m: map<string, T>, ghost cs: seq<Info>, c: Info, write: bool, v: T,
                            ghost g: Info -> bool, ghost f: Info -> T) returns (r: map<string, T>)
    requires FirstWins(m, cs, g, f)
    requires write == g(c) && v == f(c)
    ensures FirstWins(r, cs + [c], g, f)
  {
    FirstWinsStep(m, cs, c, g, f);
    r := if write && EffectiveDomain(c) !in m then m[EffectiveDomain(c) := v] else m;
  }

  lemma {:induction false} FirstWinsStep<T(!new)>(m: map<string, T>, cs: seq<Info>, c: Info,
                                                  g: Info -> bool, f: Info -> T)
    requires FirstWins(m, cs, g, f)
    ensures FirstWins(if g(c) && EffectiveDomain(c) !in m then m[EffectiveDomain(c) := f(c)] else m, cs + [c], g, f)
  {
    var m' := if g(c) && EffectiveDomain(c) !in m then m[EffectiveDomain(c) := f(c)] else m;
    forall k ensures FirstWinsAt(m', cs + [c], g, f, k) {
      assert FirstWinsAt(m, cs, g, f, k);
      FilteredGroupStep(cs, c, g, k);
    }
  }

  lemma {:induction false} AppendsStep<T(!new)>(m: map<string, seq<T>>, cs: seq<Info>, c: Info,
                                                g: Info -> bool, f: Info -> seq<T>)
    requires Appends(m, cs, g, f)
    ensures Appends(if g(c) then PushAll(m, EffectiveDomain(c), f(c)) else m, cs + [c], g, f)
  {
    var m' := if g(c) then PushAll(m, EffectiveDomain(c), f(c)) else m;
    forall k ensures AppendsAt(m', cs + [c], g, f, k) {
      assert AppendsAt(m, cs, g, f, k);
      FilteredGroupStep(cs, c, g, k);
      if EffectiveDomain(c) == k && g(c) {
        ConcatStep(Filter(Group(cs, k), g), c, f);
        if f(c) == [] {
          assert Entry(m, k) + f(c) == Entry(m, k);
        }
      }
    }
  }

  /** A container writes its own key, and its aliases once it is accepted. */
  lemma {:induction false} RootTableStep(m: map<string, ContextRoot>, cs: seq<Info>, c: Info, accepted: Info -> bool)
    requires RootTable(m, cs, accepted)
    ensures var m' := m[EffectiveDomain(c) := RootOf(c)];
            RootTable(if accepted(c) then PutAll(m', c.aliasDomains, RootOf(c)) else m', cs + [c], accepted)
  {
    var own := m[EffectiveDomain(c) := RootOf(c)];
    var m' := if accepted(c) then PutAll(own, c.aliasDomains, RootOf(c)) else own;
    assert (cs + [c])[..|cs|] == cs;
    forall k ensures RootTableAt(m', cs + [c], accepted, k) {
      assert RootTableAt(m, cs, accepted, k);
      PutAllMeaning(own, c.aliasDomains, RootOf(c), k);
    }
  }

  /** The overlay network of an accepted container is recorded as a key. */
  ghost predicate NetworkTable(m: map<string, string>, cs: seq<Info>, accepted: Info -> bool) {
    m.Keys == OverlayNetworks(cs, accepted) && forall n :: n in m ==> m[n] == ""
  }

  lemma {:induction false} NetworkTableStep(m: map<string, string>, cs: seq<Info>, c: Info, accepted: Info -> bool)
    requires NetworkTable(m, cs, accepted)
    ensures NetworkTable(if accepted(c) && c.backend.Overlay? then m[c.backend.network := ""] else m,
                         cs + [c], accepted)
  {
    var all := OverlayNetworks(cs + [c], accepted);
    var before := OverlayNetworks(cs, accepted);
    forall n ensures n in all <==> n in before || (accepted(c) && c.backend.Overlay? && n == c.backend.network) {
      if n in before {
        var d :| d in cs && accepted(d) && d.backend.Overlay? && d.backend.network == n;
        assert d in cs + [c];
      }
      if accepted(c) && c.backend.Overlay? {
        assert c in cs + [c];
      }
    }
  }
}
