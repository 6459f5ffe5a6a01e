/** The split of proxy restarts between Interlock instances (ext/lb/lb.go). */
module Restart {
  import opened Wrappers
  import opened Text
  import opened Lists

  // ---- The split ----

  /** The upper end of node i's slice: each earlier node took sub containers off the end. */
  function Bound(l: nat, sub: nat, i: nat): int {
    if i == 0 then l else Bound(l, sub, i - 1) - sub
  }

  /** n nodes can take sub containers each. */
  predicate Fits(l: nat, sub: nat, n: nat) {
    Bound(l, sub, n) >= 0
  }

  lemma {:induction false} BoundDown(l: nat, sub: nat, i: nat, j: nat)
    requires i <= j
    ensures Bound(l, sub, j) <= Bound(l, sub, i) <= l
  {
    if i < j {
      BoundDown(l, sub, i, j - 1);
    } else if i > 0 {
      BoundDown(l, sub, i - 1, j - 1);
    }
  }

  lemma {:induction false} BoundClosed(l: nat, sub: nat, i: nat)
    ensures Bound(l, sub, i) == l - i * sub
  {
    if i > 0 {
      BoundClosed(l, sub, i - 1);
      assert i * sub == (i - 1) * sub + sub;
    }
  }

  /** Go's integer division of lengths. */
  function Quotient(l: nat, n: nat): (q: nat)
    requires n > 0
    ensures q * n <= l < q * n + n
  {
    l / n
  }

  /** The quotient fits, and what is left over is the remainder. */
  lemma {:induction false} DivisionFits(l: nat, n: nat)
    requires n > 0
    ensures Fits(l, Quotient(l, n), n) && Bound(l, Quotient(l, n), n) == l % n
  {
    BoundClosed(l, Quotient(l, n), n);
  }

  /** The slice of node i: sub containers for each node but the last, the rest for the last. */
  function Slice<T>(n: nat, sub: nat, ps: seq<T>, i: nat): seq<T>
    requires i < n && Fits(|ps|, sub, n)
  {
    BoundDown(|ps|, sub, i, i + 1);
    BoundDown(|ps|, sub, i + 1, n);
    if i < n - 1 then ps[Bound(|ps|, sub, i + 1)..Bound(|ps|, sub, i)] else ps[..Bound(|ps|, sub, i)]
  }

  function Share<T>(n: nat, ps: seq<T>, i: nat): seq<T>
    requires i < n
  {
    DivisionFits(|ps|, n);
    Slice(n, Quotient(|ps|, n), ps, i)
  }

  function LastIndex(nodes: seq<string>, id: string): (i: nat)
    requires id in nodes
    ensures i < |nodes| && nodes[i] == id
    ensures forall j :: i < j < |nodes| ==> nodes[j] != id
  {
    if Last(nodes) == id then
      |nodes| - 1
    else
      assert nodes == nodes[..|nodes| - 1] + [Last(nodes)];
      LastIndex(nodes[..|nodes| - 1], id)
  }

  /** What an instance restarts. */
  function Mine<T>(nodes: seq<string>, ps: seq<T>, self: string): seq<T> {
    if |nodes| <= 1 then ps
    else if self in nodes then Share(|nodes|, ps, LastIndex(nodes, self))
    else []
  }

  method ProxyContainersToRestart<T(!new)>(nodes: seq<string>, proxyContainers: seq<T>, nodeID: string)
    returns (containersToRestart: seq<T>)
    ensures containersToRestart == Mine(nodes, proxyContainers, nodeID)
  {
    var numNodes := |nodes|;
    if numNodes == 0 {
      return proxyContainers;
    }
    if numNodes == 1 {
      return proxyContainers;
    }
    var sub := Quotient(|proxyContainers|, numNodes);
    DivisionFits(|proxyContainers|, numNodes);
    containersToRestart := SplitWork(nodes, proxyContainers, sub, nodeID);
  }

  /** work[id] is the slice of the last of the first i nodes whose ID is id. */
  ghost predicate WorkAt<T>(work: map<string, seq<T>>, nodes: seq<string>, sub: nat, ps: seq<T>, i: nat, id: string)
    requires i <= |nodes| && Fits(|ps|, sub, |nodes|)
  {
    && (id in work <==> id in nodes[..i])
    && (id in work ==> work[id] == Slice(|nodes|, sub, ps, LastIndex(nodes[..i], id)))
  }

  lemma {:induction false} LastIndexStep(nodes: seq<string>, i: nat, id: string)
    requires i < |nodes|
    ensures id in nodes[..i + 1] <==> id in nodes[..i] || id == nodes[i]
    ensures id in nodes[..i + 1] ==>
            LastIndex(nodes[..i + 1], id) == if id == nodes[i] then i else LastIndex(nodes[..i], id)
  {
    assert nodes[..i + 1] == nodes[..i] + [nodes[i]];
    assert nodes[..i + 1][..i] == nodes[..i];
  }

  ghost predicate WorkUpTo<T(!new)>(work: map<string, seq<T>>, nodes: seq<string>, sub: nat, ps: seq<T>, i: nat)
    requires i <= |nodes| && Fits(|ps|, sub, |nodes|)
  {
    forall id :: WorkAt(work, nodes, sub, ps, i, id)
  }

  lemma {:induction false} WorkStep<T(!new)>(work: map<string, seq<T>>, nodes: seq<string>, sub: nat, ps: seq<T>,
                                             i: nat, next: nat)
    requires i < |nodes| && next == i + 1 && Fits(|ps|, sub, |nodes|)
    requires WorkUpTo(work, nodes, sub, ps, i)
    ensures WorkUpTo(work[nodes[i] := Slice(|nodes|, sub, ps, i)], nodes, sub, ps, next)
  {
    var work' := work[nodes[i] := Slice(|nodes|, sub, ps, i)];
    forall id ensures WorkAt(work', nodes, sub, ps, next, id) {
      assert WorkAt(work, nodes, sub, ps, i, id);
      LastIndexStep(nodes, i, id);
    }
  }

  /** The loop that cuts one slice after the other off the end of the list. */
  method SplitWork<T(!new)>(nodes: seq<string>, proxyContainers: seq<T>, sub: nat, nodeID: string)
    returns (mine: seq<T>)
    requires |nodes| > 1 && Fits(|proxyContainers|, sub, |nodes|)
    ensures mine == if nodeID in nodes then Slice(|nodes|, sub, proxyContainers, LastIndex(nodes, nodeID)) else []
  {
    var rest := proxyContainers;
    var work: map<string, seq<T>> := map[];
    for i := 0 to |nodes| - 1
      invariant 0 <= Bound(|proxyContainers|, sub, i) <= |proxyContainers|
      invariant rest == proxyContainers[..Bound(|proxyContainers|, sub, i)]
      invariant WorkUpTo(work, nodes, sub, proxyContainers, i)
    {
      BoundDown(|proxyContainers|, sub, i + 1, |nodes|);
      WorkStep(work, nodes, sub, proxyContainers, i, i + 1);
      var p, n := rest[..|rest| - sub], rest[|rest| - sub..];
      assert n == Slice(|nodes|, sub, proxyContainers, i);
      rest := p;
      work := work[nodes[i] := n];
    }
    WorkStep(work, nodes, sub, proxyContainers, |nodes| - 1, |nodes|);
    work := work[nodes[|nodes| - 1] := rest];
    assert nodes[..|nodes|] == nodes;
    assert WorkAt(work, nodes, sub, proxyContainers, |nodes|, nodeID);
    mine := if nodeID in work then work[nodeID] else [];
  }

  /** The first n - 1 nodes get exactly l / n containers, the last one the remainder too. */
  lemma {:induction false} ShareSizes<T>(n: nat, ps: seq<T>, i: nat)
    requires i < n
    ensures |Share(n, ps, i)| == |ps| / n + if i == n - 1 then |ps| % n else 0
  {
    DivisionFits(|ps|, n);
    BoundDown(|ps|, Quotient(|ps|, n), i, i + 1);
    BoundDown(|ps|, Quotient(|ps|, n), i + 1, n);
  }

  /** The slices of nodes i.. put together from the last one to node i. */
  function Together<T>(n: nat, sub: nat, ps: seq<T>, i: nat): seq<T>
    requires i < n && Fits(|ps|, sub, n)
    decreases n - i
  {
    if i == n - 1 then Slice(n, sub, ps, i) else Together(n, sub, ps, i + 1) + Slice(n, sub, ps, i)
  }

  lemma {:induction false} TogetherIsPrefix<T>(n: nat, sub: nat, ps: seq<T>, i: nat)
    requires i < n && Fits(|ps|, sub, n)
    ensures 0 <= Bound(|ps|, sub, i) <= |ps| && Together(n, sub, ps, i) == ps[..Bound(|ps|, sub, i)]
    decreases n - i
  {
    BoundDown(|ps|, sub, i, n);
    if i < n - 1 {
      TogetherIsPrefix(n, sub, ps, i + 1);
      var m, h := Bound(|ps|, sub, i + 1), Bound(|ps|, sub, i);
      assert ps[..m] + ps[m..h] == ps[..h];
    }
  }

  /** The shares are an ordered partition: from last node to first they rebuild the list. */
  lemma {:induction false} SharesRebuildList<T>(n: nat, ps: seq<T>)
    requires n > 0
    ensures Fits(|ps|, Quotient(|ps|, n), n) && Together(n, Quotient(|ps|, n), ps, 0) == ps
  {
    DivisionFits(|ps|, n);
    TogetherIsPrefix(n, Quotient(|ps|, n), ps, 0);
  }

  lemma {:induction false} InTogether<T>(n: nat, sub: nat, ps: seq<T>, i: nat, p: T)
    requires i < n && Fits(|ps|, sub, n)
    ensures p in Together(n, sub, ps, i) <==> exists j :: i <= j < n && p in Slice(n, sub, ps, j)
    decreases n - i
  {
    if i < n - 1 {
      InTogether(n, sub, ps, i + 1, p);
    }
  }

  /** Every proxy container is in some share, and no other container is. */
  lemma {:induction false} InShares<T>(n: nat, ps: seq<T>, p: T)
    requires n > 0
    ensures p in ps <==> exists j :: 0 <= j < n && p in Share(n, ps, j)
  {
    SharesRebuildList(n, ps);
    InTogether(n, Quotient(|ps|, n), ps, 0, p);
    if p in ps {
      var j :| 0 <= j < n && p in Slice(n, Quotient(|ps|, n), ps, j);
      assert p in Share(n, ps, j);
    }
    if j :| 0 <= j < n && p in Share(n, ps, j) {
      assert p in Slice(n, Quotient(|ps|, n), ps, j);
    }
  }

  lemma {:induction false} InSlice<T>(ps: seq<T>, lo: nat, hi: nat, x: nat)
    requires lo <= hi <= |ps| && x < |ps| && Distinct(ps)
    ensures ps[x] in ps[lo..hi] <==> lo <= x < hi
  {
    if ps[x] in ps[lo..hi] {
      var y :| 0 <= y < hi - lo && ps[lo..hi][y] == ps[x];
      assert ps[lo + y] == ps[x];
    }
    if lo <= x < hi {
      assert ps[lo..hi][x - lo] == ps[x];
    }
  }

  /** Position x is in the slice of node i. */
  predicate Covers(l: nat, sub: nat, n: nat, i: nat, x: nat)
    requires i < n
  {
    (i == n - 1 || Bound(l, sub, i + 1) <= x) && x < Bound(l, sub, i)
  }

  lemma {:induction false} SlicePositions<T>(n: nat, sub: nat, ps: seq<T>, i: nat, x: nat)
    requires i < n && x < |ps| && Fits(|ps|, sub, n) && Distinct(ps)
    ensures ps[x] in Slice(n, sub, ps, i) <==> Covers(|ps|, sub, n, i, x)
  {
    BoundDown(|ps|, sub, i, i + 1);
    BoundDown(|ps|, sub, i + 1, n);
    InSlice(ps, if i < n - 1 then Bound(|ps|, sub, i + 1) else 0, Bound(|ps|, sub, i), x);
  }

  lemma {:induction false} CoversOnce(l: nat, sub: nat, n: nat, i: nat, j: nat, x: nat)
    requires i < j < n && Covers(l, sub, n, i, x)
    ensures !Covers(l, sub, n, j, x)
  {
    BoundDown(l, sub, i + 1, j);
  }

  /** A container of one share is in no later one. */
  lemma {:induction false} SharesDisjoint<T>(n: nat, ps: seq<T>, i: nat, j: nat, p: T)
    requires i < j < n && Distinct(ps) && p in Share(n, ps, i)
    ensures p !in Share(n, ps, j)
  {
    var sub := Quotient(|ps|, n);
    DivisionFits(|ps|, n);
    InShares(n, ps, p);
    var x :| 0 <= x < |ps| && ps[x] == p;
    SlicePositions(n, sub, ps, i, x);
    SlicePositions(n, sub, ps, j, x);
    CoversOnce(|ps|, sub, n, i, j, x);
  }

  // ---- Over a cluster that agrees on the nodes ----

  lemma {:induction false} SharesMeet<T>(n: nat, ps: seq<T>, i: nat, j: nat, p: T)
    requires i < n && j < n && Distinct(ps) && p in Share(n, ps, i) && p in Share(n, ps, j)
    ensures i == j
  {
    if i < j {
      SharesDisjoint(n, ps, i, j, p);
    } else if j < i {
      SharesDisjoint(n, ps, j, i, p);
    }
  }

  lemma {:induction false} SharesApart<T>(nodes: seq<string>, ps: seq<T>, s: string, t: string, p: T)
    requires |nodes| >= 2 && Distinct(ps) && s != t && p in Mine(nodes, ps, s)
    ensures p !in Mine(nodes, ps, t)
  {
    if p in Mine(nodes, ps, t) {
      SharesMeet(|nodes|, ps, LastIndex(nodes, s), LastIndex(nodes, t), p);
    }
  }

  /** Two instances never restart the same container exactly when there are two nodes, or nothing
      to restart: with fewer nodes each of them restarts everything. */
  lemma {:induction false} AtMostOnce<T>(nodes: seq<string>, ps: seq<T>, s: string, t: string)
    requires Distinct(ps) && s != t
    ensures (forall p :: p in Mine(nodes, ps, s) ==> p !in Mine(nodes, ps, t)) <==> |nodes| >= 2 || ps == []
  {
    if |nodes| >= 2 {
      forall p | p in Mine(nodes, ps, s) ensures p !in Mine(nodes, ps, t) {
        SharesApart(nodes, ps, s, t, p);
      }
    } else if ps != [] {
      assert ps[0] in Mine(nodes, ps, s) && ps[0] in Mine(nodes, ps, t);
    }
  }

  /** The share of node i reaches an instance: its ID is that of an instance and of no later node. */
  ghost predicate Reaches(nodes: seq<string>, instances: set<string>, i: nat)
    requires i < |nodes|
  {
    nodes[i] in instances && LastIndex(nodes, nodes[i]) == i
  }

  /** Every container is restarted by one of the instances exactly when each non-empty share
      reaches one; with fewer than two nodes, when there is an instance at all. */
  lemma {:induction false} AtLeastOnceExactly<T>(nodes: seq<string>, ps: seq<T>, instances: set<string>)
    requires Distinct(ps)
    ensures (forall p :: p in ps ==> exists s :: s in instances && p in Mine(nodes, ps, s)) <==>
            if |nodes| <= 1 then ps == [] || instances != {}
            else forall i :: 0 <= i < |nodes| && Share(|nodes|, ps, i) != [] ==> Reaches(nodes, instances, i)
  {
    if |nodes| >= 2 {
      if forall i :: 0 <= i < |nodes| && Share(|nodes|, ps, i) != [] ==> Reaches(nodes, instances, i) {
        forall p | p in ps ensures exists s :: s in instances && p in Mine(nodes, ps, s) {
          InShares(|nodes|, ps, p);
          var i :| 0 <= i < |nodes| && p in Share(|nodes|, ps, i);
          assert Reaches(nodes, instances, i) && p in Mine(nodes, ps, nodes[i]);
        }
      }
      if forall p :: p in ps ==> exists s :: s in instances && p in Mine(nodes, ps, s) {
        forall i | 0 <= i < |nodes| && Share(|nodes|, ps, i) != [] ensures Reaches(nodes, instances, i) {
          RestartedShareReaches(nodes, ps, instances, i);
        }
      }
    } else {
      if ps != [] && instances != {} {
        var s :| s in instances;
        assert forall p :: p in ps ==> p in Mine(nodes, ps, s);
      }
      if ps != [] {
        assert ps[0] in ps;
      }
    }
  }

  lemma {:induction false} RestartedShareReaches<T>(nodes: seq<string>, ps: seq<T>, instances: set<string>, i: nat)
    requires Distinct(ps) && |nodes| >= 2 && i < |nodes| && Share(|nodes|, ps, i) != []
    requires forall p :: p in ps ==> exists s :: s in instances && p in Mine(nodes, ps, s)
    ensures Reaches(nodes, instances, i)
  {
    var p := Share(|nodes|, ps, i)[0];
    InShares(|nodes|, ps, p);
    var s :| s in instances && p in Mine(nodes, ps, s);
    SharesMeet(|nodes|, ps, i, LastIndex(nodes, s), p);
  }

  // ---- The nodes that an instance finds ----

  datatype Inspected = Inspected(image: string, hasAppLabel: bool)

  /** A listed container, and the answer to inspecting it. */
  datatype Container = Container(id: string, running: bool, inspection: Option<Inspected>)

  /** strings.Index(image, "interlock") > 0: it occurs, but not at the very start. */
  predicate InterlockImage(image: string) {
    Contains(image, "interlock") && !("interlock" <= image)
  }

  lemma {:induction false} InterlockImageExactly(image: string)
    ensures InterlockImage(image) <==>
            !("interlock" <= image) && exists a, b :: a != "" && image == a + "interlock" + b
  {
    ContainsExactly(image, "interlock");
    if !("interlock" <= image) {
      forall a, b | image == a + "interlock" + b ensures a != "" {
        assert a == "" ==> image == "interlock" + b;
      }
    }
  }

  /** Recognised by every instance. */
  predicate Recognised(c: Container) {
    c.inspection.Some? && InterlockImage(c.inspection.value.image) && c.inspection.value.hasAppLabel
  }

  predicate Included(c: Container, self: string) {
    (c.id == self && c.running) || Recognised(c)
  }

  function NodesOf(cs: seq<Container>, self: string): seq<string> {
    if cs == [] then
      []
    else
      var init := NodesOf(cs[..|cs| - 1], self);
      if Included(Last(cs), self) then init + [Last(cs).id] else init
  }

  method InterlockNodes(containers: seq<Container>, containerID: string) returns (interlockNodes: seq<string>)
    ensures interlockNodes == NodesOf(containers, containerID)
  {
    interlockNodes := [];
    for i := 0 to |containers|
      invariant interlockNodes == NodesOf(containers[..i], containerID)
    {
      assert containers[..i + 1][..i] == containers[..i];
      var cnt := containers[i];
      if cnt.id == containerID && cnt.running {
        interlockNodes := interlockNodes + [cnt.id];
        continue;
      }
      if cnt.inspection.None? {
        continue;
      }
      if InterlockImage(cnt.inspection.value.image) {
        if cnt.inspection.value.hasAppLabel {
          interlockNodes := interlockNodes + [cnt.id];
        }
      }
    }
    assert containers[..|containers|] == containers;
  }

  ghost predicate DistinctIds(cs: seq<Container>) {
    forall i, j :: 0 <= i < j < |cs| ==> cs[i].id != cs[j].id
  }

  lemma {:induction false} NodesMembers(cs: seq<Container>, self: string)
    ensures forall id :: id in NodesOf(cs, self) <==> exists c :: c in cs && c.id == id && Included(c, self)
  {
    if cs != [] {
      NodesMembers(cs[..|cs| - 1], self);
      assert cs == cs[..|cs| - 1] + [Last(cs)];
      assert Last(cs) in cs;
    }
  }

  /** The image and the label that make a container a node for everybody. */
  ghost predicate LooksLikeInterlock(c: Container) {
    && c.inspection.Some? && c.inspection.value.hasAppLabel && !("interlock" <= c.inspection.value.image)
    && exists a, b :: a != "" && c.inspection.value.image == a + "interlock" + b
  }

  /** The collected nodes are those containers, and the instance's own running one. */
  lemma {:induction false} NodesExactly(cs: seq<Container>, self: string)
    ensures forall id :: id in NodesOf(cs, self) <==>
              exists c :: c in cs && c.id == id && ((c.id == self && c.running) || LooksLikeInterlock(c))
  {
    NodesMembers(cs, self);
    forall c | c in cs ensures Included(c, self) <==> (c.id == self && c.running) || LooksLikeInterlock(c) {
      if c.inspection.Some? {
        InterlockImageExactly(c.inspection.value.image);
      }
    }
  }

  ghost predicate InOrder(ids: seq<string>, cs: seq<Container>, positions: seq<int>) {
    && |positions| == |ids|
    && (forall i :: 0 <= i < |ids| ==> 0 <= positions[i] < |cs| && ids[i] == cs[positions[i]].id)
    && (forall i, j :: 0 <= i < j < |positions| ==> positions[i] < positions[j])
  }

  lemma {:induction false} InOrderStep(ids: seq<string>, cs: seq<Container>, c: Container, positions: seq<int>)
    requires InOrder(ids, cs, positions)
    ensures InOrder(ids, cs + [c], positions) && InOrder(ids + [c.id], cs + [c], positions + [|cs|])
  {
  }

  /** They are collected in list order. */
  lemma {:induction false} NodesInOrder(cs: seq<Container>, self: string) returns (positions: seq<int>)
    ensures InOrder(NodesOf(cs, self), cs, positions)
  {
    positions := [];
    if cs != [] {
      var init := cs[..|cs| - 1];
      positions := NodesInOrder(init, self);
      InOrderStep(NodesOf(init, self), init, Last(cs), positions);
      assert cs == init + [Last(cs)];
      positions := if Included(Last(cs), self) then positions + [|init|] else positions;
    }
  }

  lemma {:induction false} NodesDistinct(cs: seq<Container>, self: string)
    requires DistinctIds(cs)
    ensures Distinct(NodesOf(cs, self))
  {
    if cs != [] {
      var init := cs[..|cs| - 1];
      NodesDistinct(init, self);
      NodesMembers(init, self);
      forall c | c in init ensures c.id != Last(cs).id {
        var i :| 0 <= i < |init| && init[i] == c;
        assert cs[i].id != cs[|cs| - 1].id;
      }
      assert Last(cs).id !in NodesOf(init, self);
      DistinctSnoc(NodesOf(init, self), Last(cs).id);
    }
  }

  lemma {:induction false} SameNodes(cs: seq<Container>, s: string, t: string)
    requires forall c :: c in cs ==> (Included(c, s) <==> Included(c, t))
    ensures NodesOf(cs, s) == NodesOf(cs, t)
  {
    if cs != [] {
      assert Last(cs) in cs;
      SameNodes(cs[..|cs| - 1], s, t);
    }
  }

  /** Two instances see the same nodes exactly when both, as far as they run, are recognised by
      everybody: an instance always counts itself. */
  lemma {:induction false} SameViewExactly(cs: seq<Container>, s: string, t: string)
    requires DistinctIds(cs) && s != t
    ensures NodesOf(cs, s) == NodesOf(cs, t) <==>
            forall c :: c in cs && c.running && (c.id == s || c.id == t) ==> Recognised(c)
  {
    if forall c :: c in cs && c.running && (c.id == s || c.id == t) ==> Recognised(c) {
      SameNodes(cs, s, t);
    }
    if NodesOf(cs, s) == NodesOf(cs, t) {
      NodesMembers(cs, s);
      NodesMembers(cs, t);
      forall c | c in cs && c.running && (c.id == s || c.id == t) ensures Recognised(c) {
        assert c.id in NodesOf(cs, s);
        var d :| d in cs && d.id == c.id && Included(d, if c.id == s then t else s);
        assert d == c;
      }
    }
  }

  // ---- Over a cluster in which every instance looks for itself ----

  /** All instances compute the same nodes. */
  ghost predicate SameViews(cs: seq<Container>, instances: set<string>) {
    forall s, t :: s in instances && t in instances ==> NodesOf(cs, s) == NodesOf(cs, t)
  }

  /** Several instances have the same view exactly when everybody recognises the running ones. */
  lemma {:induction false} SameViewsExactly(cs: seq<Container>, instances: set<string>)
    requires DistinctIds(cs) && exists s, t :: s in instances && t in instances && s != t
    ensures SameViews(cs, instances) <==> forall c :: c in cs && c.running && c.id in instances ==> Recognised(c)
  {
    if SameViews(cs, instances) {
      forall c | c in cs && c.running && c.id in instances ensures Recognised(c) {
        var t :| t in instances && t != c.id;
        SameViewExactly(cs, c.id, t);
      }
    }
    if forall c :: c in cs && c.running && c.id in instances ==> Recognised(c) {
      forall s, t | s in instances && t in instances ensures NodesOf(cs, s) == NodesOf(cs, t) {
        SameNodes(cs, s, t);
      }
    }
  }

  /** What instance s restarts, by the nodes that it finds itself. */
  function Restarts<T>(cs: seq<Container>, ps: seq<T>, s: string): seq<T> {
    Mine(NodesOf(cs, s), ps, s)
  }

  /** Exactly one of the instances restarts p. */
  ghost predicate Once<T>(cs: seq<Container>, instances: set<string>, ps: seq<T>, p: T) {
    exists s :: s in instances && p in Restarts(cs, ps, s)
                && forall t :: t in instances && p in Restarts(cs, ps, t) ==> t == s
  }

  /** When all instances have the same view, each container is restarted exactly once exactly when
      there is none, or when several nodes are found and every one with a non-empty share is an
      instance, or when there is one instance only. */
  lemma {:induction false} ExactlyOnceExactly<T>(cs: seq<Container>, instances: set<string>, ps: seq<T>, self: string)
    requires DistinctIds(cs) && Distinct(ps) && SameViews(cs, instances) && self in instances
    ensures (forall p :: p in ps ==> Once(cs, instances, ps, p)) <==>
            var nodes := NodesOf(cs, self);
            || ps == []
            || (if |nodes| <= 1 then instances == {self}
                else forall i :: 0 <= i < |nodes| && Share(|nodes|, ps, i) != [] ==> nodes[i] in instances)
  {
    var nodes := NodesOf(cs, self);
    assert forall s :: s in instances ==> Restarts(cs, ps, s) == Mine(nodes, ps, s);
    if |nodes| >= 2 {
      OnceAmongNodes(cs, instances, ps, self);
    } else if ps != [] {
      forall p | p in ps ensures Once(cs, instances, ps, p) <==> instances == {self} {
        OnceAlone(cs, instances, ps, self, p);
      }
      assert ps[0] in ps;
    }
  }

  lemma {:induction false} OnceAmongNodes<T>(cs: seq<Container>, instances: set<string>, ps: seq<T>, self: string)
    requires DistinctIds(cs) && Distinct(ps) && self in instances && |NodesOf(cs, self)| >= 2
    requires forall s :: s in instances ==> Restarts(cs, ps, s) == Mine(NodesOf(cs, self), ps, s)
    ensures var nodes := NodesOf(cs, self);
            (forall p :: p in ps ==> Once(cs, instances, ps, p)) <==>
            (forall i :: 0 <= i < |nodes| && Share(|nodes|, ps, i) != [] ==> nodes[i] in instances)
  {
    var nodes := NodesOf(cs, self);
    NodesDistinct(cs, self);
    AtLeastOnceExactly(nodes, ps, instances);
    forall i | 0 <= i < |nodes| ensures Reaches(nodes, instances, i) <==> nodes[i] in instances {
      assert LastIndex(nodes, nodes[i]) == i;
    }
    forall p | p in ps
      ensures Once(cs, instances, ps, p) <==> exists s :: s in instances && p in Mine(nodes, ps, s)
    {
      if s :| s in instances && p in Mine(nodes, ps, s) {
        forall t | t in instances && p in Restarts(cs, ps, t) ensures t == s {
          if t != s {
            SharesApart(nodes, ps, s, t, p);
          }
        }
        assert p in Restarts(cs, ps, s);
      }
    }
  }

  lemma {:induction false} OnceAlone<T>(cs: seq<Container>, instances: set<string>, ps: seq<T>, self: string, p: T)
    requires self in instances && forall s :: s in instances ==> p in Restarts(cs, ps, s)
    ensures Once(cs, instances, ps, p) <==> instances == {self}
  {
    if instances == {self} {
      assert p in Restarts(cs, ps, self);
    }
    if Once(cs, instances, ps, p) {
      var s :| s in instances && forall t :: t in instances && p in Restarts(cs, ps, t) ==> t == s;
      assert forall t :: t in instances ==> t == s;
    }
  }

  // ---- Instances that find different nodes ----

  /** Position x of l containers is in the slice of node i of n. */
  predicate Owns(l: nat, n: nat, i: nat, x: nat)
    requires i < n
  {
    (i == n - 1 || l - (i + 1) * Quotient(l, n) <= x) && x < l - i * Quotient(l, n)
  }

  lemma {:induction false} SharePositions<T>(n: nat, ps: seq<T>, i: nat, x: nat)
    requires i < n && x < |ps| && Distinct(ps)
    ensures ps[x] in Share(n, ps, i) <==> Owns(|ps|, n, i, x)
  {
    var q := Quotient(|ps|, n);
    DivisionFits(|ps|, n);
    SlicePositions(n, q, ps, i, x);
    BoundClosed(|ps|, q, i);
    BoundClosed(|ps|, q, i + 1);
  }

  /** Instance s, which finds `nodes`, restarts the container at position x of l. */
  predicate RestartsAt(nodes: seq<string>, l: nat, s: string, x: nat) {
    |nodes| <= 1 || (s in nodes && Owns(l, |nodes|, LastIndex(nodes, s), x))
  }

  /** Whatever nodes the instances find: how many of them restart a container is decided by their
      numbers of nodes, their own positions among them, and the container's position. */
  lemma {:induction false} OnceByPosition<T>(cs: seq<Container>, instances: set<string>, ps: seq<T>, x: nat)
    requires Distinct(ps) && x < |ps|
    ensures Once(cs, instances, ps, ps[x]) <==>
            exists s :: s in instances && RestartsAt(NodesOf(cs, s), |ps|, s, x)
                        && forall t :: t in instances && RestartsAt(NodesOf(cs, t), |ps|, t, x) ==> t == s
  {
    forall s | s in instances
      ensures ps[x] in Restarts(cs, ps, s) <==> RestartsAt(NodesOf(cs, s), |ps|, s, x)
    {
      var nodes := NodesOf(cs, s);
      if |nodes| >= 2 && s in nodes {
        SharePositions(|nodes|, ps, LastIndex(nodes, s), x);
      }
    }
  }

  /** The nodes that everybody recognises. */
  function Known(cs: seq<Container>): seq<string> {
    if cs == [] then
      []
    else
      var init := Known(cs[..|cs| - 1]);
      if Recognised(Last(cs)) then init + [Last(cs).id] else init
  }

  lemma {:induction false} KnownMembers(cs: seq<Container>)
    ensures forall id :: id in Known(cs) <==> exists c :: c in cs && c.id == id && Recognised(c)
  {
    if cs != [] {
      KnownMembers(cs[..|cs| - 1]);
      assert cs == cs[..|cs| - 1] + [Last(cs)];
      assert Last(cs) in cs;
    }
  }

  lemma {:induction false} KnownView(cs: seq<Container>, s: string)
    requires forall c :: c in cs ==> (Included(c, s) <==> Recognised(c))
    ensures NodesOf(cs, s) == Known(cs)
  {
    if cs != [] {
      assert Last(cs) in cs;
      KnownView(cs[..|cs| - 1], s);
    }
  }

  /** The recognised instances find the recognised nodes. */
  lemma {:induction false} KnownViews(cs: seq<Container>)
    requires DistinctIds(cs)
    ensures Distinct(Known(cs)) && forall s :: s in Known(cs) ==> NodesOf(cs, s) == Known(cs)
  {
    KnownMembers(cs);
    forall s | s in Known(cs) ensures NodesOf(cs, s) == Known(cs) {
      SameIds(cs);
      KnownView(cs, s);
    }
    if Known(cs) != [] {
      assert Known(cs)[0] in Known(cs);
      NodesDistinct(cs, Known(cs)[0]);
    }
  }

  /** An instance restarts nothing: it finds several nodes, and is none of them, or one before the
      last with more nodes than containers. */
  predicate Idle(nodes: seq<string>, l: nat, s: string) {
    |nodes| >= 2 && (s in nodes ==> LastIndex(nodes, s) < |nodes| - 1 && l < |nodes|)
  }

  lemma {:induction false} IdleExactly<T>(nodes: seq<string>, ps: seq<T>, s: string)
    requires ps != []
    ensures Mine(nodes, ps, s) == [] <==> Idle(nodes, |ps|, s)
  {
    if |nodes| >= 2 && s in nodes {
      ShareSizes(|nodes|, ps, LastIndex(nodes, s));
      EmptyShare(|ps|, |nodes|);
    }
  }

  lemma {:induction false} EmptyShare(l: nat, n: nat)
    requires n > 0
    ensures l / n == 0 <==> l < n
    ensures l < n ==> l % n == l
  {
    var q := Quotient(l, n);
    if q >= 1 {
      assert q * n >= n;
    }
  }

  /** When every recognised container runs an instance, each container is restarted exactly once
      exactly when there is none, or when the instances that are not recognised are idle; if nobody
      is recognised, when there is one instance. The views may differ. */
  lemma {:induction false} RecognisedInstancesExactly<T>(cs: seq<Container>, instances: set<string>, ps: seq<T>)
    requires DistinctIds(cs) && Distinct(ps) && forall c :: c in cs && Recognised(c) ==> c.id in instances
    ensures (forall p :: p in ps ==> Once(cs, instances, ps, p)) <==>
            || ps == []
            || (if Known(cs) == [] then exists self :: self in instances && instances == {self}
                else forall s :: s in instances && s !in Known(cs) ==> Idle(NodesOf(cs, s), |ps|, s))
  {
    if ps != [] && Known(cs) == [] {
      NobodyKnown(cs, instances, ps);
    } else if ps != [] {
      forall s ensures Restarts(cs, ps, s) == [] <==> Idle(NodesOf(cs, s), |ps|, s) {
        IdleExactly(NodesOf(cs, s), ps, s);
      }
      forall p | p in ps
        ensures Once(cs, instances, ps, p) <==>
                forall s :: s in instances && s !in Known(cs) ==> p !in Restarts(cs, ps, s)
      {
        OnceUnlessStranger(cs, instances, ps, p);
      }
      forall s | s in instances && Restarts(cs, ps, s) != [] ensures Restarts(cs, ps, s)[0] in ps {
        MineAreProxies(NodesOf(cs, s), ps, s, Restarts(cs, ps, s)[0]);
      }
    }
  }

  lemma {:induction false} MineAreProxies<T>(nodes: seq<string>, ps: seq<T>, s: string, p: T)
    requires p in Mine(nodes, ps, s)
    ensures p in ps
  {
    if |nodes| >= 2 {
      InShares(|nodes|, ps, p);
    }
  }

  /** Nobody is recognised: every instance finds itself at most, and restarts everything. */
  lemma {:induction false} NobodyKnown<T>(cs: seq<Container>, instances: set<string>, ps: seq<T>)
    requires DistinctIds(cs) && Known(cs) == [] && ps != []
    ensures (forall p :: p in ps ==> Once(cs, instances, ps, p)) <==>
            exists self :: self in instances && instances == {self}
  {
    forall s ensures Restarts(cs, ps, s) == ps {
      LonelyView(cs, s);
    }
    forall p, self | p in ps && self in instances ensures Once(cs, instances, ps, p) <==> instances == {self} {
      OnceAlone(cs, instances, ps, self, p);
    }
    assert ps[0] in ps;
    if instances == {} {
      assert !Once(cs, instances, ps, ps[0]);
    } else {
      var self :| self in instances;
    }
  }

  lemma {:induction false} AnotherNode(nodes: seq<string>, s: string)
    requires Distinct(nodes) && |nodes| >= 2
    ensures exists id :: id in nodes && id != s
  {
    assert nodes[0] in nodes && nodes[1] in nodes && nodes[0] != nodes[1];
  }

  lemma {:induction false} LonelyView(cs: seq<Container>, s: string)
    requires DistinctIds(cs) && Known(cs) == []
    ensures |NodesOf(cs, s)| <= 1
  {
    KnownMembers(cs);
    NodesMembers(cs, s);
    NodesDistinct(cs, s);
    var nodes := NodesOf(cs, s);
    forall id | id in nodes ensures id == s {
      var c :| c in cs && c.id == id && Included(c, s);
      assert c.id in Known(cs) || c.id == s;
    }
    if |nodes| >= 2 {
      AnotherNode(nodes, s);
    }
  }

  /** The recognised instances alone restart p exactly once. */
  lemma {:induction false} OnceUnlessStranger<T>(cs: seq<Container>, instances: set<string>, ps: seq<T>, p: T)
    requires DistinctIds(cs) && Distinct(ps) && forall c :: c in cs && Recognised(c) ==> c.id in instances
    requires Known(cs) != [] && p in ps
    ensures Once(cs, instances, ps, p) <==>
            forall s :: s in instances && s !in Known(cs) ==> p !in Restarts(cs, ps, s)
  {
    var owner := KnownOwner(cs, ps, p);
    KnownMembers(cs);
    assert owner in instances;
    if forall s :: s in instances && s !in Known(cs) ==> p !in Restarts(cs, ps, s) {
      assert forall t :: t in instances && p in Restarts(cs, ps, t) ==> t == owner;
    }
  }

  lemma {:induction false} KnownOwner<T>(cs: seq<Container>, ps: seq<T>, p: T) returns (owner: string)
    requires DistinctIds(cs) && Distinct(ps) && Known(cs) != [] && p in ps
    ensures owner in Known(cs) && p in Restarts(cs, ps, owner)
    ensures forall t :: t in Known(cs) && p in Restarts(cs, ps, t) ==> t == owner
  {
    var nodes := Known(cs);
    KnownViews(cs);
    if |nodes| == 1 {
      owner := nodes[0];
    } else {
      InShares(|nodes|, ps, p);
      var i :| 0 <= i < |nodes| && p in Share(|nodes|, ps, i);
      owner := nodes[i];
      assert LastIndex(nodes, owner) == i;
      forall t | t in nodes && p in Restarts(cs, ps, t) ensures t == owner {
        if t != owner {
          SharesApart(nodes, ps, owner, t, p);
        }
      }
    }
  }

  // ---- Healthy clusters and stopped nodes ----

  /** The running Interlock containers, each of which runs an instance. */
  ghost predicate HealthyCluster(cs: seq<Container>, instances: set<string>) {
    && DistinctIds(cs)
    && (forall c :: c in cs && Recognised(c) ==> c.running && c.id in instances)
    && (forall s :: s in instances ==> exists c :: c in cs && c.id == s && Recognised(c))
  }

  /** In a healthy cluster all instances compute the same nodes, and every proxy container is
      restarted by exactly one of them. */
  lemma {:induction false} ExactlyOnce<T>(cs: seq<Container>, instances: set<string>, ps: seq<T>, p: T)
    requires HealthyCluster(cs, instances) && instances != {} && Distinct(ps) && p in ps
    ensures SameViews(cs, instances) && Once(cs, instances, ps, p)
  {
    var self :| self in instances;
    HealthyViews(cs, instances, self);
    ExactlyOnceExactly(cs, instances, ps, self);
  }

  lemma {:induction false} HealthyViews(cs: seq<Container>, instances: set<string>, self: string)
    requires HealthyCluster(cs, instances) && self in instances
    ensures SameViews(cs, instances)
    ensures forall i :: 0 <= i < |NodesOf(cs, self)| ==> NodesOf(cs, self)[i] in instances
    ensures |NodesOf(cs, self)| <= 1 ==> instances == {self}
  {
    forall s, t | s in instances && t in instances ensures NodesOf(cs, s) == NodesOf(cs, t) {
      SameIds(cs);
      SameNodes(cs, s, t);
    }
    NodesAreInstances(cs, instances, self);
    var nodes := NodesOf(cs, self);
    if |nodes| <= 1 {
      forall s | s in instances ensures s == self {
        assert s in nodes && self in nodes;
      }
    }
  }

  /** A listed ID belongs to one container. */
  lemma {:induction false} SameIds(cs: seq<Container>)
    requires DistinctIds(cs)
    ensures forall c, d :: c in cs && d in cs && c.id == d.id ==> c == d
  {
  }

  lemma {:induction false} NodesAreInstances(cs: seq<Container>, instances: set<string>, self: string)
    requires HealthyCluster(cs, instances) && self in instances
    ensures forall id :: id in NodesOf(cs, self) <==> id in instances
  {
    NodesMembers(cs, self);
    SameIds(cs);
  }

  /** A stopped Interlock container that everybody recognises is still counted as a node, so no
      instance restarts any container of its share. */
  lemma {:induction false} StoppedNodeLosesShare<T>(cs: seq<Container>, instances: set<string>, ps: seq<T>,
                                                    self: string, stopped: Container)
    requires DistinctIds(cs) && Distinct(ps) && SameViews(cs, instances) && self in instances
    requires forall c :: c in cs && c.id in instances ==> c.running
    requires stopped in cs && Recognised(stopped) && !stopped.running
    requires |NodesOf(cs, self)| >= 2 && Mine(NodesOf(cs, self), ps, stopped.id) != []
    ensures forall p, s :: p in Mine(NodesOf(cs, self), ps, stopped.id) && s in instances ==> p !in Restarts(cs, ps, s)
    ensures exists p :: p in ps && p in Mine(NodesOf(cs, self), ps, stopped.id)
  {
    var nodes := NodesOf(cs, self);
    NodesMembers(cs, self);
    assert stopped.id in nodes && stopped.id !in instances;
    forall p, s | p in Mine(nodes, ps, stopped.id) && s in instances ensures p !in Restarts(cs, ps, s) {
      SharesApart(nodes, ps, stopped.id, s, p);
    }
    InShares(|nodes|, ps, Mine(nodes, ps, stopped.id)[0]);
  }
}
