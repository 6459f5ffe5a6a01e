/** Address resolution over the port map of a container (ext/lb/utils/network.go). Go ranges over
    a map in any order; an order is a parameter here. */
module Addresses {
  import opened Wrappers
  import opened Text
  import opened Lists

  datatype Binding = Binding(hostIP: string, hostPort: string)

  /** Port keys such as "80/tcp", with their host bindings. */
  type PortMap = map<string, seq<Binding>>

  /** Indexing an empty binding list is a run-time panic. */
  datatype Outcome = Address(addr: string) | Panic

  ghost predicate IsOrder(order: seq<string>, ports: PortMap) {
    Distinct(order) && forall k :: k in order <==> k in ports
  }

  function PortPart(key: string): string {
    Split(key, '/')[0]
  }

  /** The port of a key is the part before its slash. */
  lemma {:induction false} PortPartMeaning(port: string, protocol: string)
    requires '/' !in port
    ensures PortPart(port + "/" + protocol) == port && PortPart(port) == port
  {
    SplitFirst(port, '/', protocol);
  }

  predicate Matches(key: string, portLabel: Option<string>) {
    portLabel.Some? && PortPart(key) == portLabel.value
  }

  function FirstPublished(ports: PortMap, order: seq<string>): Option<string>
    requires forall k :: k in order ==> k in ports
  {
    if order == [] then None
    else if ports[order[0]] != [] then Some(order[0])
    else FirstPublished(ports, order[1..])
  }

  function FirstMatch(order: seq<string>, portLabel: Option<string>): Option<string> {
    if order == [] then None
    else if Matches(order[0], portLabel) then Some(order[0])
    else FirstMatch(order[1..], portLabel)
  }

  function JoinAddress(ip: string, port: string): string {
    ip + ":" + port
  }

  /** The address that BackendAddress gives under the two iteration orders of its loops. */
  function Resolve(ports: PortMap, first: seq<string>, second: seq<string>, portLabel: Option<string>,
                   override: string): Outcome
    requires forall k :: k in first || k in second ==> k in ports
  {
    FirstMatchIn(second, portLabel);
    FirstPublishedIn(ports, first);
    var published, matching := FirstPublished(ports, first), FirstMatch(second, portLabel);
    var binding := if published.Some? then ports[published.value][0] else Binding("", "");
    var ip := if override != "" then override else binding.hostIP;
    if matching.None? then Address(JoinAddress(ip, binding.hostPort))
    else if ports[matching.value] == [] then Panic
    else Address(JoinAddress(ip, ports[matching.value][0].hostPort))
  }

  lemma {:induction false} FirstPublishedIn(ports: PortMap, order: seq<string>)
    requires forall k :: k in order ==> k in ports
    ensures match FirstPublished(ports, order)
            case Some(k) => k in order && ports[k] != []
            case None => forall k :: k in order ==> ports[k] == []
  {
    if order != [] {
      assert order == [order[0]] + order[1..];
      if ports[order[0]] == [] {
        FirstPublishedIn(ports, order[1..]);
      }
    }
  }

  lemma {:induction false} FirstMatchIn(order: seq<string>, portLabel: Option<string>)
    ensures match FirstMatch(order, portLabel)
            case Some(k) => k in order && Matches(k, portLabel)
            case None => forall k :: k in order ==> !Matches(k, portLabel)
  {
    if order != [] {
      assert order == [order[0]] + order[1..];
      if !Matches(order[0], portLabel) {
        FirstMatchIn(order[1..], portLabel);
      }
    }
  }

  /** The address, spelled out: the first published binding's IP, unless it is overridden, a colon,
      and its host port, unless the label is the part before the slash of a port key; then it is that
      port's first host port. */
  lemma {:induction false} AddressByBindings(ports: PortMap, first: seq<string>, second: seq<string>,
                                             portLabel: Option<string>, override: string, i: nat)
    requires IsOrder(first, ports) && IsOrder(second, ports)
    requires i < |first| && ports[first[i]] != [] && forall j :: 0 <= j < i ==> ports[first[j]] == []
    ensures var ip := if override != "" then override else ports[first[i]][0].hostIP;
            && (portLabel.None? ==>
                  Resolve(ports, first, second, portLabel, override)
                  == Address(ip + ":" + ports[first[i]][0].hostPort))
            && (forall port, protocol ::
                  portLabel == Some(port) && '/' !in port && port + "/" + protocol in ports
                  && (forall k :: k in ports && PortPart(k) == port ==> k == port + "/" + protocol)
                  && ports[port + "/" + protocol] != [] ==>
                  Resolve(ports, first, second, portLabel, override)
                  == Address(ip + ":" + ports[port + "/" + protocol][0].hostPort))
  {
    FirstPublishedAt(ports, first, i);
    FirstMatchIn(second, portLabel);
    forall port, protocol | '/' !in port ensures PortPart(port + "/" + protocol) == port {
      PortPartMeaning(port, protocol);
    }
  }

  lemma {:induction false} FirstPublishedAt(ports: PortMap, order: seq<string>, i: nat)
    requires forall k :: k in order ==> k in ports
    requires i < |order| && ports[order[i]] != [] && forall j :: 0 <= j < i ==> ports[order[j]] == []
    ensures FirstPublished(ports, order) == Some(order[i])
  {
    if i > 0 {
      FirstPublishedAt(ports, order[1..], i - 1);
    }
  }

  method BackendAddress(ports: PortMap, first: seq<string>, second: seq<string>, portLabel: Option<string>,
                        override: string) returns (outcome: Outcome)
    requires IsOrder(first, ports) && IsOrder(second, ports)
    ensures outcome == Resolve(ports, first, second, portLabel, override)
  {
    var hostIP, hostPort := "", "";
    var i := 0;
    while i < |first|
      invariant 0 <= i <= |first| && hostIP == "" && hostPort == ""
      invariant FirstPublished(ports, first) == FirstPublished(ports, first[i..])
    {
      assert first[i] in first;
      var v := ports[first[i]];
      if |v| > 0 {
        hostIP, hostPort := v[0].hostIP, v[0].hostPort;
        break;
      }
      assert first[i..][1..] == first[i + 1..];
      i := i + 1;
    }
    if override != "" {
      hostIP := override;
    }
    ghost var published := hostPort;
    if portLabel.Some? {
      var interlockPort := portLabel.value;
      i := 0;
      while i < |second|
        invariant 0 <= i <= |second| && hostPort == published
        invariant FirstMatch(second, portLabel) == FirstMatch(second[i..], portLabel)
      {
        assert second[i] in second;
        var parts := Split(second[i], '/');
        if parts[0] == interlockPort {
          if ports[second[i]] == [] {
            return Panic;
          }
          hostPort := ports[second[i]][0].hostPort;
          break;
        }
        assert second[i..][1..] == second[i + 1..];
        i := i + 1;
      }
    } else {
      FirstMatchIn(second, portLabel);
    }
    outcome := Address(JoinAddress(hostIP, hostPort));
  }

  // ---- Orders ----

  lemma {:induction false} SomeOrder(keys: set<string>) returns (order: seq<string>)
    ensures Distinct(order) && forall k :: k in order <==> k in keys
    decreases |keys|
  {
    order := [];
    if keys != {} {
      var k :| k in keys;
      var rest := SomeOrder(keys - {k});
      order := rest + [k];
      DistinctSnoc(rest, k);
    }
  }

  /** Any key can come first. */
  lemma {:induction false} OrderFrom(ports: PortMap, k: string) returns (order: seq<string>)
    requires k in ports
    ensures IsOrder(order, ports) && order[0] == k
  {
    var rest := SomeOrder(ports.Keys - {k});
    order := [k] + rest;
  }

  lemma {:induction false} PublishedFirst(ports: PortMap, k: string) returns (order: seq<string>)
    requires k in ports && ports[k] != []
    ensures IsOrder(order, ports) && FirstPublished(ports, order) == Some(k)
  {
    order := OrderFrom(ports, k);
  }

  lemma {:induction false} MatchFirst(ports: PortMap, k: string, portLabel: Option<string>) returns (order: seq<string>)
    requires k in ports && Matches(k, portLabel)
    ensures IsOrder(order, ports) && FirstMatch(order, portLabel) == Some(k)
  {
    order := OrderFrom(ports, k);
  }

  // ---- When the order does not matter ----

  ghost predicate OrderIndependent(ports: PortMap, portLabel: Option<string>, override: string) {
    forall a, b, c, d :: IsOrder(a, ports) && IsOrder(b, ports) && IsOrder(c, ports) && IsOrder(d, ports) ==>
      Resolve(ports, a, b, portLabel, override) == Resolve(ports, c, d, portLabel, override)
  }

  /** All published ports have the same first host IP, or it is overridden. */
  ghost predicate SameIP(ports: PortMap, override: string) {
    override != "" || forall k, l :: k in ports && l in ports && ports[k] != [] && ports[l] != [] ==>
      ports[k][0].hostIP == ports[l][0].hostIP
  }

  ghost predicate SamePort(ports: PortMap) {
    forall k, l :: k in ports && l in ports && ports[k] != [] && ports[l] != [] ==>
      ports[k][0].hostPort == ports[l][0].hostPort
  }

  ghost predicate Matched(ports: PortMap, portLabel: Option<string>) {
    exists k :: k in ports && Matches(k, portLabel)
  }

  /** Every port that the label names is unpublished. */
  ghost predicate NoMatchPublished(ports: PortMap, portLabel: Option<string>) {
    forall k :: k in ports && Matches(k, portLabel) ==> ports[k] == []
  }

  /** Every port that the label names is published, all at the same host port. */
  ghost predicate MatchesAgree(ports: PortMap, portLabel: Option<string>) {
    forall k, l :: k in ports && l in ports && Matches(k, portLabel) && Matches(l, portLabel) ==>
      ports[k] != [] && ports[l] != [] && ports[k][0].hostPort == ports[l][0].hostPort
  }

  /** The labels and bindings leave one choice: a matched port decides the host port and the
      published ports agree on the IP, or without a match the published ports agree on both. When
      no matched port is published, every order panics. */
  ghost predicate OneChoice(ports: PortMap, portLabel: Option<string>, override: string) {
    if Matched(ports, portLabel) then
      NoMatchPublished(ports, portLabel) || (MatchesAgree(ports, portLabel) && SameIP(ports, override))
    else
      SamePort(ports) && SameIP(ports, override)
  }

  /** Host ports, being numbers, contain no colon. */
  ghost predicate NumericPorts(ports: PortMap) {
    forall k :: k in ports && ports[k] != [] ==> ':' !in ports[k][0].hostPort
  }

  lemma {:induction false} JoinInjective(ip: string, port: string, ip': string, port': string)
    requires ':' !in port && ':' !in port' && JoinAddress(ip, port) == JoinAddress(ip', port')
    ensures ip == ip' && port == port'
  {
    var s := JoinAddress(ip, port);
    forall j | |ip| < j < |s| ensures s[j] != ':' {
      assert s[j] == port[j - |ip| - 1];
    }
    forall j | |ip'| < j < |s| ensures s[j] != ':' {
      assert s[j] == port'[j - |ip'| - 1];
    }
    assert s[|ip|] == ':' && s[|ip'|] == ':';
    assert |ip| == |ip'|;
    assert s[..|ip|] == ip && s[..|ip'|] == ip' && s[|ip| + 1..] == port && s[|ip'| + 1..] == port';
  }

  lemma {:induction false} OneChoiceSuffices(ports: PortMap, portLabel: Option<string>, override: string,
                                             a: seq<string>, b: seq<string>, c: seq<string>, d: seq<string>)
    requires OneChoice(ports, portLabel, override)
    requires IsOrder(a, ports) && IsOrder(b, ports) && IsOrder(c, ports) && IsOrder(d, ports)
    ensures Resolve(ports, a, b, portLabel, override) == Resolve(ports, c, d, portLabel, override)
  {
    FirstPublishedIn(ports, a);
    FirstPublishedIn(ports, c);
    FirstMatchIn(b, portLabel);
    FirstMatchIn(d, portLabel);
  }

  /** With independence, two published ports have the same IP and, without a match, the same port. */
  lemma {:induction false} PublishedAgree(ports: PortMap, portLabel: Option<string>, override: string,
                                         k: string, l: string)
    requires OrderIndependent(ports, portLabel, override) && NumericPorts(ports)
    requires k in ports && l in ports && ports[k] != [] && ports[l] != []
    requires Matched(ports, portLabel) ==> exists m :: m in ports && Matches(m, portLabel) && ports[m] != []
    ensures override == "" ==> ports[k][0].hostIP == ports[l][0].hostIP
    ensures !Matched(ports, portLabel) ==> ports[k][0].hostPort == ports[l][0].hostPort
  {
    var a := PublishedFirst(ports, k);
    var c := PublishedFirst(ports, l);
    var ipK := if override != "" then override else ports[k][0].hostIP;
    var ipL := if override != "" then override else ports[l][0].hostIP;
    if Matched(ports, portLabel) {
      var m :| m in ports && Matches(m, portLabel) && ports[m] != [];
      var b := MatchFirst(ports, m, portLabel);
      assert Resolve(ports, a, b, portLabel, override) == Resolve(ports, c, b, portLabel, override);
      JoinInjective(ipK, ports[m][0].hostPort, ipL, ports[m][0].hostPort);
    } else {
      FirstMatchIn(a, portLabel);
      assert Resolve(ports, a, a, portLabel, override) == Resolve(ports, c, a, portLabel, override);
      JoinInjective(ipK, ports[k][0].hostPort, ipL, ports[l][0].hostPort);
    }
  }

  /** With independence, one published match makes all matches published at its host port. */
  lemma {:induction false} MatchesMustAgree(ports: PortMap, portLabel: Option<string>, override: string,
                                         k: string, l: string)
    requires OrderIndependent(ports, portLabel, override) && NumericPorts(ports)
    requires k in ports && Matches(k, portLabel) && ports[k] != []
    requires l in ports && Matches(l, portLabel)
    ensures ports[l] != [] && ports[k][0].hostPort == ports[l][0].hostPort
  {
    var a := PublishedFirst(ports, k);
    var b := MatchFirst(ports, k, portLabel);
    var d := MatchFirst(ports, l, portLabel);
    assert Resolve(ports, a, b, portLabel, override) == Resolve(ports, a, d, portLabel, override);
    var ip := if override != "" then override else ports[k][0].hostIP;
    if ports[l] != [] {
      JoinInjective(ip, ports[k][0].hostPort, ip, ports[l][0].hostPort);
    }
  }

  /** The result does not depend on the iteration order exactly when there is one choice. */
  lemma {:induction false} OrderIndependentExactly(ports: PortMap, portLabel: Option<string>, override: string)
    requires NumericPorts(ports)
    ensures OrderIndependent(ports, portLabel, override) <==> OneChoice(ports, portLabel, override)
  {
    if OneChoice(ports, portLabel, override) {
      forall a, b, c, d | IsOrder(a, ports) && IsOrder(b, ports) && IsOrder(c, ports) && IsOrder(d, ports)
        ensures Resolve(ports, a, b, portLabel, override) == Resolve(ports, c, d, portLabel, override)
      {
        OneChoiceSuffices(ports, portLabel, override, a, b, c, d);
      }
    }
    if OrderIndependent(ports, portLabel, override)
       && !(Matched(ports, portLabel) && NoMatchPublished(ports, portLabel)) {
      forall k, l | k in ports && l in ports && ports[k] != [] && ports[l] != []
        ensures override == "" ==> ports[k][0].hostIP == ports[l][0].hostIP
        ensures !Matched(ports, portLabel) ==> ports[k][0].hostPort == ports[l][0].hostPort
      {
        PublishedAgree(ports, portLabel, override, k, l);
      }
      if Matched(ports, portLabel) {
        var m :| m in ports && Matches(m, portLabel) && ports[m] != [];
        forall k | k in ports && Matches(k, portLabel)
          ensures ports[k] != [] && ports[m][0].hostPort == ports[k][0].hostPort
        {
          MatchesMustAgree(ports, portLabel, override, m, k);
        }
      }
    }
  }

  // ---- The panic ----

  /** Some port that the label names is not published. */
  ghost predicate MatchUnpublished(ports: PortMap, portLabel: Option<string>) {
    exists k :: k in ports && Matches(k, portLabel) && ports[k] == []
  }

  /** BackendAddress panics under some order exactly when a port that the label names is not
      published, and under all orders exactly when the label names ports and none is published. */
  lemma {:induction false} PanicExactly(ports: PortMap, portLabel: Option<string>, override: string)
    ensures (exists a, b :: IsOrder(a, ports) && IsOrder(b, ports)
                            && Resolve(ports, a, b, portLabel, override) == Panic) <==>
            MatchUnpublished(ports, portLabel)
    ensures (forall a, b :: IsOrder(a, ports) && IsOrder(b, ports) ==>
                            Resolve(ports, a, b, portLabel, override) == Panic) <==>
            Matched(ports, portLabel) && NoMatchPublished(ports, portLabel)
  {
    forall a, b | IsOrder(a, ports) && IsOrder(b, ports)
      ensures Resolve(ports, a, b, portLabel, override) == Panic ==> MatchUnpublished(ports, portLabel)
      ensures Matched(ports, portLabel) && NoMatchPublished(ports, portLabel) ==>
              Resolve(ports, a, b, portLabel, override) == Panic
    {
      FirstMatchIn(b, portLabel);
    }
    var any := SomeOrder(ports.Keys);
    if k :| k in ports && Matches(k, portLabel) && ports[k] == [] {
      var b := MatchFirst(ports, k, portLabel);
      assert Resolve(ports, any, b, portLabel, override) == Panic;
    }
    if forall a, b :: IsOrder(a, ports) && IsOrder(b, ports) ==> Resolve(ports, a, b, portLabel, override) == Panic {
      assert Resolve(ports, any, any, portLabel, override) == Panic;
      FirstMatchIn(any, portLabel);
      forall k | k in ports && Matches(k, portLabel) ensures ports[k] == [] {
        var b := MatchFirst(ports, k, portLabel);
        assert Resolve(ports, any, b, portLabel, override) == Panic;
      }
    }
  }

  // ---- Overlay networks ----

  function FirstNamed(order: seq<string>): Option<string> {
    if order == [] then None else if order[0] != "" then Some(order[0]) else FirstNamed(order[1..])
  }

  /** ip is the container's address in the overlay network, None when it is not connected or has
      no valid address there. */
  function ResolveOverlay(ip: Option<string>, order: seq<string>, portLabel: Option<string>): Option<string> {
    if ip.None? then
      None
    else
      var port := match FirstNamed(order) case Some(k) => PortPart(k) case None => "";
      Some(JoinAddress(ip.value, portLabel.GetOr(port)))
  }

  method BackendOverlayAddress(ip: Option<string>, ports: PortMap, order: seq<string>, portLabel: Option<string>)
    returns (addr: Option<string>)
    requires IsOrder(order, ports)
    ensures addr == ResolveOverlay(ip, order, portLabel)
  {
    if ip.None? {
      return None;
    }
    var hostPort := "";
    var i := 0;
    while i < |order|
      invariant 0 <= i <= |order| && hostPort == ""
      invariant FirstNamed(order) == FirstNamed(order[i..])
    {
      if order[i] != "" {
        hostPort := Split(order[i], '/')[0];
        break;
      }
      assert order[i..][1..] == order[i + 1..];
      i := i + 1;
    }
    if portLabel.Some? {
      hostPort := portLabel.value;
    }
    addr := Some(JoinAddress(ip.value, hostPort));
  }

  /** The overlay address, spelled out: the container's IP, a colon, and the label, or without one
      the part before the slash of the first key. */
  lemma {:induction false} OverlayByKeys(ip: string, order: seq<string>, portLabel: string, port: string,
                                         protocol: string)
    requires order != [] && order[0] == port + "/" + protocol && '/' !in port
    ensures ResolveOverlay(Some(ip), order, Some(portLabel)) == Some(ip + ":" + portLabel)
    ensures ResolveOverlay(Some(ip), order, None) == Some(ip + ":" + port)
    ensures ResolveOverlay(None, order, Some(portLabel)) == None
  {
    PortPartMeaning(port, protocol);
  }

  lemma {:induction false} FirstNamedIn(order: seq<string>)
    ensures match FirstNamed(order)
            case Some(k) => k in order && k != ""
            case None => forall k :: k in order ==> k == ""
  {
    if order != [] {
      assert order == [order[0]] + order[1..];
      if order[0] == "" {
        FirstNamedIn(order[1..]);
      }
    }
  }

  /** An overlay address is independent of the order exactly with a port label, or when all
      named port keys have the same port part. */
  lemma {:induction false} OverlayIndependentExactly(ip: string, ports: PortMap, portLabel: Option<string>)
    ensures (forall a, b :: IsOrder(a, ports) && IsOrder(b, ports) ==>
               ResolveOverlay(Some(ip), a, portLabel) == ResolveOverlay(Some(ip), b, portLabel)) <==>
            (portLabel.Some?
             || forall k, l :: k in ports && l in ports && k != "" && l != "" ==> PortPart(k) == PortPart(l))
  {
    if portLabel.None? && forall k, l :: k in ports && l in ports && k != "" && l != "" ==> PortPart(k) == PortPart(l) {
      forall a, b | IsOrder(a, ports) && IsOrder(b, ports)
        ensures ResolveOverlay(Some(ip), a, portLabel) == ResolveOverlay(Some(ip), b, portLabel)
      {
        FirstNamedIn(a);
        FirstNamedIn(b);
      }
    }
    if portLabel.None? && forall a, b :: IsOrder(a, ports) && IsOrder(b, ports) ==>
         ResolveOverlay(Some(ip), a, portLabel) == ResolveOverlay(Some(ip), b, portLabel) {
      forall k, l | k in ports && l in ports && k != "" && l != "" ensures PortPart(k) == PortPart(l) {
        var a := OrderFrom(ports, k);
        var b := OrderFrom(ports, l);
        assert ResolveOverlay(Some(ip), a, portLabel) == ResolveOverlay(Some(ip), b, portLabel);
        var s := JoinAddress(ip, PortPart(k));
        assert s[|ip| + 1..] == PortPart(k);
      }
    }
  }
}
