/** The parser of the node list in the Docker info rows (server/utils.go). */
module SwarmNodes {
  import opened Text
  import opened Lists

  type Row = (string, string)

  datatype Node = Node(
    name: string,
    addr: string,
    containers: string,
    reservedCPUs: string,
    reservedMemory: string,
    labels: seq<string>)

  const BACKSPACE: char := '\U{0008}'
  const MARK: string := " \U{2514}"
  const CONTAINERS: string := MARK + " Containers"
  const CPUS: string := MARK + " Reserved CPUs"
  const MEMORY: string := MARK + " Reserved Memory"
  const LABELS: string := MARK + " Labels"

  // ---- Specification: a state machine over the rows ----

  /** The carried fields of the node that is being read, and the nodes read so far. */
  datatype State = State(name: string, addr: string, containers: string, cpus: string, memory: string, nodes: seq<Node>)

  function Blank(nodes: seq<Node>): State {
    State("", "", "", "", "", nodes)
  }

  predicate IsNameRow(row: Row) {
    BACKSPACE !in row.0 && !Contains(row.0, MARK)
  }

  function Step(s: State, row: Row): State {
    var (key, data) := row;
    if BACKSPACE in key then s
    else if !Contains(key, MARK) then s.(name := key, addr := data)
    else if key == CONTAINERS then s.(containers := data)
    else if key == CPUS then s.(cpus := data)
    else if key == MEMORY then s.(memory := data)
    else if key == LABELS then
      Blank(s.nodes + [Node(s.name, s.addr, s.containers, s.cpus, s.memory, Split(data, ','))])
    else s
  }

  function Run(s: State, rows: seq<Row>): State {
    if rows == [] then s else Step(Run(s, rows[..|rows| - 1]), Last(rows))
  }

  function Parse(rows: seq<Row>): seq<Node> {
    Run(Blank([]), rows).nodes
  }

  lemma {:induction false} KnownLabels()
    ensures Contains(CONTAINERS, MARK) && Contains(CPUS, MARK) && Contains(MEMORY, MARK) && Contains(LABELS, MARK)
    ensures BACKSPACE !in CONTAINERS && BACKSPACE !in CPUS && BACKSPACE !in MEMORY && BACKSPACE !in LABELS
  {
    assert MARK <= CONTAINERS && MARK <= CPUS && MARK <= MEMORY && MARK <= LABELS;
  }

  method ParseSwarmNodes(driverStatus: seq<Row>) returns (nodes: seq<Node>)
    ensures nodes == Parse(driverStatus)
  {
    nodes := [];
    var nodeComplete := false;
    var name, addr, containers, reservedCPUs, reservedMemory := "", "", "", "", "";
    var labels: seq<string> := [];
    KnownLabels();
    for i := 0 to |driverStatus|
      invariant State(name, addr, containers, reservedCPUs, reservedMemory, nodes) == Run(Blank([]), driverStatus[..i])
      invariant !nodeComplete
    {
      assert driverStatus[..i + 1][..i] == driverStatus[..i];
      var (key, data) := driverStatus[i];
      if BACKSPACE in key {
        continue;
      }
      if !Contains(key, MARK) {
        name, addr := key, data;
      }
      if key == CONTAINERS {
        containers := data;
      } else if key == CPUS {
        reservedCPUs := data;
      } else if key == MEMORY {
        reservedMemory := data;
      } else if key == LABELS {
        labels := Split(data, ',');
        nodeComplete := true;
      } else {
        continue;
      }
      if nodeComplete {
        nodes := nodes + [Node(name, addr, containers, reservedCPUs, reservedMemory, labels)];
        name, addr, containers, reservedCPUs, reservedMemory := "", "", "", "", "";
        labels := [];
        nodeComplete := false;
      }
    }
    assert driverStatus[..|driverStatus|] == driverStatus;
  }

  lemma {:induction false} RunAppend(s: State, a: seq<Row>, b: seq<Row>)
    ensures Run(s, a + b) == Run(Run(s, a), b)
  {
    if b == [] {
      assert a + b == a;
    } else {
      assert (a + b)[..|a + b| - 1] == a + b[..|b| - 1];
      RunAppend(s, a, b[..|b| - 1]);
    }
  }

  // ---- The rows of a node ----

  /** What each row does to the carried fields, whatever was read before. */
  lemma {:induction false} ContainersRow(s: State, data: string)
    ensures Step(s, (" \U{2514} Containers", data)) == s.(containers := data)
  {
    KnownLabels();
  }

  lemma {:induction false} ReservedCPUsRow(s: State, data: string)
    ensures Step(s, (" \U{2514} Reserved CPUs", data)) == s.(cpus := data)
  {
    KnownLabels();
  }

  lemma {:induction false} ReservedMemoryRow(s: State, data: string)
    ensures Step(s, (" \U{2514} Reserved Memory", data)) == s.(memory := data)
  {
    KnownLabels();
  }

  /** The Labels row completes the node and blanks the fields. */
  lemma {:induction false} LabelsRow(s: State, data: string)
    ensures Step(s, (" \U{2514} Labels", data))
         == State("", "", "", "", "",
                  s.nodes + [Node(s.name, s.addr, s.containers, s.cpus, s.memory, Split(data, ','))])
  {
    KnownLabels();
  }

  /** A row without U+0008 and without the marker names the next node. */
  lemma {:induction false} NameRow(s: State, name: string, addr: string)
    requires '\U{0008}' !in name && !Contains(name, " \U{2514}")
    ensures Step(s, (name, addr)) == s.(name := name, addr := addr)
  {
  }

  /** The five rows of a node are read as that node, each value in its own field. */
  lemma {:induction false} FiveRows(name: string, addr: string, c: string, r: string, m: string, l: string)
    requires '\U{0008}' !in name && !Contains(name, " \U{2514}")
    ensures Parse([(name, addr), (" \U{2514} Containers", c), (" \U{2514} Reserved CPUs", r),
                   (" \U{2514} Reserved Memory", m), (" \U{2514} Labels", l)])
         == [Node(name, addr, c, r, m, Split(l, ','))]
  {
    var rows := [(name, addr), (" \U{2514} Containers", c), (" \U{2514} Reserved CPUs", r),
                 (" \U{2514} Reserved Memory", m), (" \U{2514} Labels", l)];
    var s := Blank([]);
    var s1 := s.(name := name, addr := addr);
    var s2 := s1.(containers := c);
    var s3 := s2.(cpus := r);
    NameRow(s, name, addr);
    ContainersRow(s1, c);
    ReservedCPUsRow(s2, r);
    ReservedMemoryRow(s3, m);
    LabelsRow(s3.(memory := m), l);
    RunOne(s, rows, 0);
    RunOne(s, rows, 1);
    RunOne(s, rows, 2);
    RunOne(s, rows, 3);
    RunOne(s, rows, 4);
    assert rows[..0] == [] && rows[..5] == rows;
  }

  lemma {:induction false} RunOne(s: State, rows: seq<Row>, i: nat)
    requires i < |rows|
    ensures Run(s, rows[..i + 1]) == Step(Run(s, rows[..i]), rows[i])
  {
    assert rows[..i + 1][..i] == rows[..i];
  }

  // ---- Noise ----

  /** A row of cluster information, or a marked row that is none of the four known ones. */
  predicate Noise(row: Row) {
    BACKSPACE in row.0 || (Contains(row.0, MARK) && row.0 !in {CONTAINERS, CPUS, MEMORY, LABELS})
  }

  /** Noise rows are exactly those that no state notices. */
  lemma {:induction false} NoiseExactly(row: Row)
    ensures Noise(row) <==> forall s :: Step(s, row) == s
  {
    KnownLabels();
    if !Noise(row) {
      var other := row.1 + "x";
      var s := State(row.0 + "x", "", other, other, other, []);
      assert |s.name| != |row.0| && |other| != |row.1|;
      assert Step(s, row) != s;
    }
  }

  lemma {:induction false} RunNoise(s: State, noise: seq<Row>)
    requires forall r :: r in noise ==> Noise(r)
    ensures Run(s, noise) == s
  {
    if noise != [] {
      assert Last(noise) in noise;
      RunNoise(s, noise[..|noise| - 1]);
      NoiseExactly(Last(noise));
    }
  }

  /** Noise rows inserted anywhere leave the result unchanged. */
  lemma {:induction false} NoiseImmunity(a: seq<Row>, noise: seq<Row>, b: seq<Row>)
    requires forall r :: r in noise ==> Noise(r)
    ensures Parse(a + noise + b) == Parse(a + b)
  {
    var s := Blank([]);
    RunAppend(s, a + noise, b);
    RunAppend(s, a, noise);
    RunNoise(Run(s, a), noise);
    RunAppend(s, a, b);
  }

  function LabelsRows(rows: seq<Row>): nat {
    if rows == [] then 0 else LabelsRows(rows[..|rows| - 1]) + if Last(rows).0 == LABELS then 1 else 0
  }

  /** There are as many nodes as Labels rows. */
  lemma {:induction false} NodesAreLabelsRows(s: State, rows: seq<Row>)
    ensures |Run(s, rows).nodes| == |s.nodes| + LabelsRows(rows)
  {
    KnownLabels();
    if rows != [] {
      NodesAreLabelsRows(s, rows[..|rows| - 1]);
    }
  }

  // ---- Round trip ----

  function NodeRows(n: Node): seq<Row> {
    [(n.name, n.addr), (CONTAINERS, n.containers), (CPUS, n.reservedCPUs), (MEMORY, n.reservedMemory),
     (LABELS, Join(n.labels, ','))]
  }

  function Print(nodes: seq<Node>): seq<Row> {
    if nodes == [] then [] else Print(nodes[..|nodes| - 1]) + NodeRows(Last(nodes))
  }

  predicate Printable(n: Node) {
    && BACKSPACE !in n.name && !Contains(n.name, MARK)
    && n.labels != [] && forall l :: l in n.labels ==> ',' !in l
  }

  /** What the parser reads back from the rows of a node. */
  function ReadBack(n: Node): Node {
    var named := if IsNameRow((n.name, n.addr)) then n else n.(name := "", addr := "");
    named.(labels := Split(Join(n.labels, ','), ','))
  }

  function ReadAll(nodes: seq<Node>): seq<Node> {
    if nodes == [] then [] else ReadAll(nodes[..|nodes| - 1]) + [ReadBack(Last(nodes))]
  }

  lemma {:induction false} RunNodeRows(nodes: seq<Node>, n: Node)
    requires n.name != LABELS
    ensures Run(Blank(nodes), NodeRows(n)) == Blank(nodes + [ReadBack(n)])
  {
    KnownLabels();
    var rows, s := NodeRows(n), Blank(nodes);
    assert rows[..0] == [] && rows[..1][..0] == rows[..0] && rows[..2][..1] == rows[..1];
    assert rows[..3][..2] == rows[..2] && rows[..4][..3] == rows[..3];
    var s1 := Step(s, rows[0]);
    assert Run(s, rows[..1]) == s1;
    var s2 := s1.(containers := n.containers);
    assert Run(s, rows[..2]) == s2;
    var s3 := s2.(cpus := n.reservedCPUs);
    assert Run(s, rows[..3]) == s3;
    assert Run(s, rows[..4]) == s3.(memory := n.reservedMemory);
  }

  lemma {:induction false} RunPrint(nodes: seq<Node>)
    requires forall n :: n in nodes ==> n.name != LABELS
    ensures Run(Blank([]), Print(nodes)) == Blank(ReadAll(nodes))
  {
    if nodes != [] {
      var init, n := nodes[..|nodes| - 1], Last(nodes);
      assert n in nodes;
      RunPrint(init);
      RunAppend(Blank([]), Print(init), NodeRows(n));
      RunNodeRows(ReadAll(init), n);
    }
  }

  lemma {:induction false} ReadBackExactly(n: Node)
    ensures ReadBack(n) == n <==> Printable(n)
  {
    SplitJoin(n.labels, ',');
    if !IsNameRow((n.name, n.addr)) {
      assert n.name != "";
    }
  }

  ghost predicate AllPrintable(nodes: seq<Node>) {
    forall n :: n in nodes ==> Printable(n)
  }

  lemma {:induction false} AllPrintableStep(nodes: seq<Node>, n: Node)
    ensures AllPrintable(nodes + [n]) <==> AllPrintable(nodes) && Printable(n)
  {
    if AllPrintable(nodes + [n]) {
      assert n in nodes + [n];
      forall m | m in nodes ensures Printable(m) {
        assert m in nodes + [n];
      }
    }
  }

  lemma {:induction false} SnocEqual<T>(a: seq<T>, x: T, b: seq<T>, y: T)
    requires |a| == |b|
    ensures a + [x] == b + [y] <==> a == b && x == y
  {
    assert (a + [x])[..|a|] == a && (b + [y])[..|b|] == b;
    assert (a + [x])[|a|] == x && (b + [y])[|b|] == y;
  }

  lemma {:induction false} ReadAllExactly(nodes: seq<Node>)
    ensures |ReadAll(nodes)| == |nodes|
    ensures ReadAll(nodes) == nodes <==> AllPrintable(nodes)
  {
    if nodes != [] {
      var init, n := nodes[..|nodes| - 1], Last(nodes);
      ReadAllExactly(init);
      ReadBackExactly(n);
      assert nodes == init + [n];
      AllPrintableStep(init, n);
      SnocEqual(ReadAll(init), ReadBack(n), init, n);
    }
  }

  lemma {:induction false} LabelsRowsAppend(a: seq<Row>, b: seq<Row>)
    ensures LabelsRows(a + b) == LabelsRows(a) + LabelsRows(b)
  {
    if b == [] {
      assert a + b == a;
    } else {
      assert (a + b)[..|a + b| - 1] == a + b[..|b| - 1];
      LabelsRowsAppend(a, b[..|b| - 1]);
    }
  }

  lemma {:induction false} LabelsRowsOfNode(n: Node)
    ensures LabelsRows(NodeRows(n)) == if n.name == LABELS then 2 else 1
  {
    var rows := NodeRows(n);
    assert rows[..0] == [] && rows[..1][..0] == rows[..0] && rows[..2][..1] == rows[..1];
    assert rows[..3][..2] == rows[..2] && rows[..4][..3] == rows[..3];
    assert |CONTAINERS| != |LABELS| && |CPUS| != |LABELS| && |MEMORY| != |LABELS|;
    assert LabelsRows(rows[..1]) == if n.name == LABELS then 1 else 0;
    assert LabelsRows(rows[..2]) == LabelsRows(rows[..1]);
    assert LabelsRows(rows[..3]) == LabelsRows(rows[..2]);
    assert LabelsRows(rows[..4]) == LabelsRows(rows[..3]);
  }

  lemma {:induction false} ExtraNodes(nodes: seq<Node>)
    ensures LabelsRows(Print(nodes)) >= |nodes|
    ensures LabelsRows(Print(nodes)) == |nodes| ==> forall n :: n in nodes ==> n.name != LABELS
  {
    if nodes != [] {
      var init, n := nodes[..|nodes| - 1], Last(nodes);
      ExtraNodes(init);
      LabelsRowsAppend(Print(init), NodeRows(n));
      LabelsRowsOfNode(n);
      assert nodes == init + [n];
    }
  }

  /** Parsing a printed node list gives it back exactly when every node is printable. */
  lemma {:induction false} RoundTrip(nodes: seq<Node>)
    ensures Parse(Print(nodes)) == nodes <==> AllPrintable(nodes)
  {
    KnownLabels();
    ExtraNodes(nodes);
    NodesAreLabelsRows(Blank([]), Print(nodes));
    if Parse(Print(nodes)) == nodes || AllPrintable(nodes) {
      assert forall n :: n in nodes ==> n.name != LABELS;
      RunPrint(nodes);
      ReadAllExactly(nodes);
    }
  }
}
