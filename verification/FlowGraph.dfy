/** The flow graph of aperag/flow/base/models.py: nodes, edges, paths and cycles. */
module FlowGraph {

  type Node = string

  datatype Edge = Edge(source: Node, target: Node)

  /** Nodes are the keys of a dictionary, in insertion order; edges may repeat. */
  datatype Flow = Flow(nodes: seq<Node>, edges: seq<Edge>)

  predicate Distinct<T(==)>(s: seq<T>) {
    forall i, j | 0 <= i < j < |s| :: s[i] != s[j]
  }

  predicate TargetsKnown(flow: Flow) {
    forall i | 0 <= i < |flow.edges| :: flow.edges[i].target in flow.nodes
  }

  predicate SourcesKnown(flow: Flow) {
    forall i | 0 <= i < |flow.edges| :: flow.edges[i].source in flow.nodes
  }

  /** A walk along edges, as the sequence of its nodes. */
  predicate IsPath(flow: Flow, path: seq<Node>) {
    path != [] && forall i | 0 < i < |path| :: Hop(flow, path, i)
  }

  predicate Hop(flow: Flow, path: seq<Node>, i: nat)
    requires 0 < i < |path|
  {
    Edge(path[i - 1], path[i]) in flow.edges
  }

  predicate IsCycle(flow: Flow, path: seq<Node>) {
    |path| >= 2 && IsPath(flow, path) && path[0] == path[|path| - 1]
  }

  ghost predicate Acyclic(flow: Flow) {
    forall path: seq<Node> :: !IsCycle(flow, path)
  }

  /** All nodes once, every edge going forward. */
  ghost predicate IsTopologicalOrder(flow: Flow, order: seq<Node>) {
    && Distinct(order)
    && (forall n :: n in order <==> n in flow.nodes)
    && forall j | 0 <= j < |order| :: SourcesBefore(flow, order, j)
  }

  predicate SourcesBefore(flow: Flow, order: seq<Node>, j: nat)
    requires j < |order|
  {
    forall i | 0 <= i < |flow.edges| && flow.edges[i].target == order[j] :: flow.edges[i].source in order[..j]
  }

  // ------------------------------------------------------------------
  // Counting incoming edges
  // ------------------------------------------------------------------

  /** The number of edges into `n` whose source is not in `done`. */
  function InCount(edges: seq<Edge>, done: set<Node>, n: Node): nat {
    if edges == [] then 0
    else InCount(edges[1..], done, n) + if edges[0].target == n && edges[0].source !in done then 1 else 0
  }

  lemma {:induction false} InCountAppend(x: seq<Edge>, y: seq<Edge>, done: set<Node>, n: Node)
    ensures InCount(x + y, done, n) == InCount(x, done, n) + InCount(y, done, n)
  {
    if x == [] {
      assert x + y == y;
    } else {
      assert (x + y)[1..] == x[1..] + y;
      InCountAppend(x[1..], y, done, n);
    }
  }

  /** Nothing is counted exactly when all sources are done. */
  lemma {:induction false} InCountZero(edges: seq<Edge>, done: set<Node>, n: Node)
    ensures InCount(edges, done, n) == 0
      <==> forall i | 0 <= i < |edges| && edges[i].target == n :: edges[i].source in done
  {
    if edges != [] {
      InCountZero(edges[1..], done, n);
      assert forall i | 0 <= i < |edges[1..]| :: edges[1..][i] == edges[i + 1];
      assert forall i | 0 < i < |edges| :: edges[i] == edges[1..][i - 1];
    }
  }

  // ------------------------------------------------------------------
  // Cycles
  // ------------------------------------------------------------------

  ghost predicate Within<T(!new)>(s: seq<T>, r: set<T>) {
    forall i | 0 <= i < |s| :: s[i] in r
  }

  lemma {:induction false} DistinctFits<T(!new)>(s: seq<T>, r: set<T>)
    requires Within(s, r) && Distinct(s)
    ensures |s| <= |r|
    decreases |s|
  {
    if s != [] {
      var n := |s| - 1;
      DistinctFits(s[..n], r - {s[n]});
    }
  }

  lemma {:induction false} SubPath(flow: Flow, path: seq<Node>, a: nat, b: nat)
    requires IsPath(flow, path) && a < b <= |path|
    ensures IsPath(flow, path[a..b])
  {
    var part := path[a..b];
    forall i | 0 < i < |part| ensures Hop(flow, part, i) {
      assert Hop(flow, path, a + i);
    }
  }

  lemma {:induction false} PathCons(flow: Flow, n: Node, path: seq<Node>)
    requires IsPath(flow, path) && Edge(n, path[0]) in flow.edges
    ensures IsPath(flow, [n] + path)
  {
    var longer := [n] + path;
    forall i | 0 < i < |longer| ensures Hop(flow, longer, i) {
      if i > 1 {
        assert Hop(flow, path, i - 1);
      }
    }
  }

  ghost predicate Fed(flow: Flow, r: set<Node>, n: Node) {
    exists m :: m in r && Edge(m, n) in flow.edges
  }

  /** Every node of `r` has an edge from a node of `r`. */
  ghost predicate Stuck(flow: Flow, r: set<Node>) {
    forall n {:trigger Fed(flow, r, n)} | n in r :: Fed(flow, r, n)
  }

  lemma {:induction false} Predecessor(flow: Flow, r: set<Node>, n: Node) returns (m: Node)
    requires Stuck(flow, r) && n in r
    ensures m in r && Edge(m, n) in flow.edges
  {
    assert Fed(flow, r, n);
    m :| m in r && Edge(m, n) in flow.edges;
  }

  /** Walking backwards inside a stuck set must repeat a node. */
  lemma {:induction false} StuckHasCycle(flow: Flow, r: set<Node>, path: seq<Node>) returns (cycle: seq<Node>)
    requires Stuck(flow, r) && IsPath(flow, path) && Within(path, r)
    ensures IsCycle(flow, cycle)
    decreases |r| + 1 - |path|
  {
    if Distinct(path) {
      DistinctFits(path, r);
      var m := Predecessor(flow, r, path[0]);
      PathCons(flow, m, path);
      cycle := StuckHasCycle(flow, r, [m] + path);
    } else {
      var i, j :| 0 <= i < j < |path| && path[i] == path[j];
      SubPath(flow, path, i, j + 1);
      cycle := path[i..j + 1];
    }
  }

  function IndexOf(order: seq<Node>, n: Node): (i: nat)
    requires n in order
    ensures i < |order| && order[i] == n
  {
    if order[0] == n then 0 else 1 + IndexOf(order[1..], n)
  }

  lemma {:induction false} PathClimbs(flow: Flow, order: seq<Node>, path: seq<Node>, k: nat)
    requires IsTopologicalOrder(flow, order) && TargetsKnown(flow)
    requires IsPath(flow, path) && path[0] in order && k < |path|
    ensures path[k] in order && IndexOf(order, path[0]) + k <= IndexOf(order, path[k])
  {
    if k > 0 {
      PathClimbs(flow, order, path, k - 1);
      assert Hop(flow, path, k);
      var e :| 0 <= e < |flow.edges| && flow.edges[e] == Edge(path[k - 1], path[k]);
      EdgeClimbs(flow, order, e, path[k]);
    }
  }

  lemma {:induction false} EdgeClimbs(flow: Flow, order: seq<Node>, e: nat, n: Node)
    requires IsTopologicalOrder(flow, order) && e < |flow.edges| && flow.edges[e].target == n
    requires flow.edges[e].source in order
    ensures n in order ==> IndexOf(order, flow.edges[e].source) < IndexOf(order, n)
  {
    if n in order {
      var j := IndexOf(order, n);
      assert SourcesBefore(flow, order, j);
    }
  }
}
