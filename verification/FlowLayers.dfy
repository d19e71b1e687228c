/** Level-by-level grouping: `FlowEngine._find_parallel_groups` of aperag/flow/engine.py. */
module FlowLayers {
  import opened FlowGraph
  import opened FlowSort

  // ------------------------------------------------------------------
  // Longest paths
  // ------------------------------------------------------------------

  /** Some path of `k` edges ends at `n`. */
  predicate HasPath(flow: Flow, n: Node, k: nat)
    decreases k
  {
    k == 0 || exists i | 0 <= i < |flow.edges| :: flow.edges[i].target == n && HasPath(flow, flow.edges[i].source, k - 1)
  }

  /** The longest path ending at `n` has `k` edges. */
  predicate Depth(flow: Flow, n: Node, k: nat) {
    HasPath(flow, n, k) && !HasPath(flow, n, k + 1)
  }

  /** `HasPath` counts real paths. */
  lemma {:induction false} HasPathIsPath(flow: Flow, n: Node, k: nat)
    ensures HasPath(flow, n, k) <==> exists path :: IsPath(flow, path) && |path| == k + 1 && path[k] == n
    decreases k
  {
    if k == 0 {
      assert IsPath(flow, [n]) && [n][0] == n;
    } else {
      if HasPath(flow, n, k) {
        var i :| 0 <= i < |flow.edges| && flow.edges[i].target == n && HasPath(flow, flow.edges[i].source, k - 1);
        HasPathIsPath(flow, flow.edges[i].source, k - 1);
        var path :| IsPath(flow, path) && |path| == k && path[k - 1] == flow.edges[i].source;
        assert flow.edges[i] == Edge(path[k - 1], n);
        PathSnoc(flow, path, n);
        assert (path + [n])[k] == n;
      }
      if path :| IsPath(flow, path) && |path| == k + 1 && path[k] == n {
        SubPath(flow, path, 0, k);
        HasPathIsPath(flow, path[k - 1], k - 1);
        assert path[0..k][k - 1] == path[k - 1];
        assert Hop(flow, path, k);
        var i :| 0 <= i < |flow.edges| && flow.edges[i] == Edge(path[k - 1], n);
      }
    }
  }

  lemma {:induction false} PathSnoc(flow: Flow, path: seq<Node>, n: Node)
    requires IsPath(flow, path) && Edge(path[|path| - 1], n) in flow.edges
    ensures IsPath(flow, path + [n])
  {
    var longer := path + [n];
    forall i | 0 < i < |longer| ensures Hop(flow, longer, i) {
      if i < |path| {
        assert Hop(flow, path, i);
      }
    }
  }

  /** Shorter paths end there too. */
  lemma {:induction false} HasPathShrinks(flow: Flow, n: Node, k: nat)
    requires HasPath(flow, n, k + 1)
    ensures HasPath(flow, n, k)
    decreases k
  {
    if k > 0 {
      var i :| 0 <= i < |flow.edges| && flow.edges[i].target == n && HasPath(flow, flow.edges[i].source, k);
      HasPathShrinks(flow, flow.edges[i].source, k - 1);
    }
  }

  // ------------------------------------------------------------------
  // The grouping loop
  // ------------------------------------------------------------------

  /** The first `|groups|` groups are the nodes of depth 0, 1, and so on. */
  ghost predicate GroupsAreLayers(flow: Flow, groups: seq<set<Node>>) {
    forall k {:trigger IsLayer(flow, groups[k], k)} | 0 <= k < |groups| :: IsLayer(flow, groups[k], k)
  }

  ghost predicate IsLayer(flow: Flow, group: set<Node>, k: nat) {
    group != {} && forall n :: n in group <==> n in flow.nodes && Depth(flow, n, k)
  }

  /** `processed` holds the nodes no path of `r` edges ends at. */
  ghost predicate ProcessedBelow(flow: Flow, processed: set<Node>, r: nat) {
    forall n :: n in processed <==> n in flow.nodes && !HasPath(flow, n, r)
  }

  /** The nodes that are ready: not processed, no incoming edge left. */
  function ReadyNodes(sorted: seq<Node>, inDegree: map<Node, int>, processed: set<Node>): set<Node>
    requires forall n <- sorted :: n in inDegree
  {
    set n | n in sorted && inDegree[n] == 0 && n !in processed
  }

  lemma {:induction false} ReadyAreNextLayer(
      flow: Flow, sorted: seq<Node>, inDegree: map<Node, int>, processed: set<Node>, r: nat)
    requires IsTopologicalOrder(flow, sorted) && Counts(flow, inDegree, processed)
    requires ProcessedBelow(flow, processed, r)
    ensures forall n <- sorted :: n in inDegree
    ensures forall n :: n in ReadyNodes(sorted, inDegree, processed) <==> n in flow.nodes && Depth(flow, n, r)
  {
    assert forall n :: n in sorted ==> n in flow.nodes;
    assert forall n :: n in flow.nodes ==> n in Elements(flow.nodes);
    assert forall i | 0 <= i < |flow.edges| :: flow.edges[i].source in processed ==> !HasPath(flow, flow.edges[i].source, r);
    forall n | n in flow.nodes
      ensures n in ReadyNodes(sorted, inDegree, processed) <==> Depth(flow, n, r)
    {
      InCountZero(flow.edges, processed, n);
      assert n in sorted;
      if n in ReadyNodes(sorted, inDegree, processed) {
        assert !HasPath(flow, n, r + 1);
      }
      if Depth(flow, n, r) {
        SourcesAreProcessed(flow, sorted, processed, n, r);
      }
    }
  }

  lemma {:induction false} SourcesAreProcessed(flow: Flow, sorted: seq<Node>, processed: set<Node>, n: Node, r: nat)
    requires IsTopologicalOrder(flow, sorted) && ProcessedBelow(flow, processed, r)
    requires n in flow.nodes && !HasPath(flow, n, r + 1)
    ensures forall i | 0 <= i < |flow.edges| && flow.edges[i].target == n :: flow.edges[i].source in processed
  {
    forall i | 0 <= i < |flow.edges| && flow.edges[i].target == n ensures flow.edges[i].source in processed {
      assert n in sorted;
      assert SourcesBefore(flow, sorted, IndexOf(sorted, n));
      assert flow.edges[i].source in sorted;
      assert !HasPath(flow, flow.edges[i].source, r);
    }
  }

  /** The first unprocessed node in topological order is always ready: the `break` is dead. */
  lemma {:induction false} SomeNodeIsReady(
      flow: Flow, sorted: seq<Node>, inDegree: map<Node, int>, processed: set<Node>, j: nat)
    requires IsTopologicalOrder(flow, sorted) && Counts(flow, inDegree, processed)
    requires forall n <- sorted :: n in inDegree
    requires j < |sorted| && sorted[j] !in processed
    ensures ReadyNodes(sorted, inDegree, processed) != {}
    decreases j
  {
    if i :| 0 <= i < j && sorted[i] !in processed {
      SomeNodeIsReady(flow, sorted, inDegree, processed, i);
    } else {
      InCountZero(flow.edges, processed, sorted[j]);
      assert SourcesBefore(flow, sorted, j);
      assert forall n <- sorted[..j] :: n in processed;
      assert sorted[j] in flow.nodes;
      assert sorted[j] in ReadyNodes(sorted, inDegree, processed);
    }
  }

  /** Takes one processed node out of the in-degrees. */
  method DropEdges(flow: Flow, v: Node, inDegree0: map<Node, int>, ghost done: set<Node>)
    returns (inDegree: map<Node, int>)
    requires TargetsKnown(flow) && v !in done && Counts(flow, inDegree0, done)
    ensures Counts(flow, inDegree, done + {v})
  {
    inDegree := inDegree0;
    CountsStart(flow, inDegree, done, v);
    for k := 0 to |flow.edges|
      invariant CountsFrom(flow, inDegree, done, v, k)
    {
      var edge := flow.edges[k];
      ghost var before := inDegree;
      if edge.source == v {
        inDegree := inDegree[edge.target := inDegree[edge.target] - 1];
      }
      CountsStep(flow, before, inDegree, done, v, k);
    }
    CountsEnd(flow, inDegree, done, v);
  }

  /** Marks a whole group processed, in any order. */
  method ProcessGroup(flow: Flow, group: set<Node>, inDegree0: map<Node, int>, processed0: set<Node>)
    returns (inDegree: map<Node, int>, processed: set<Node>)
    requires TargetsKnown(flow) && group !! processed0 && Counts(flow, inDegree0, processed0)
    ensures processed == processed0 + group && Counts(flow, inDegree, processed)
  {
    inDegree, processed := inDegree0, processed0;
    var todo := group;
    while todo != {}
      invariant todo <= group && processed == processed0 + (group - todo)
      invariant Counts(flow, inDegree, processed)
      decreases todo
    {
      var v :| v in todo;
      inDegree := DropEdges(flow, v, inDegree, processed);
      processed := processed + {v};
      todo := todo - {v};
    }
  }

  lemma {:induction false} NextProcessed(flow: Flow, processed: set<Node>, group: set<Node>, r: nat)
    requires ProcessedBelow(flow, processed, r)
    requires forall n :: n in group <==> n in flow.nodes && Depth(flow, n, r)
    ensures ProcessedBelow(flow, processed + group, r + 1)
  {
    forall n ensures n in processed + group <==> n in flow.nodes && !HasPath(flow, n, r + 1) {
      if HasPath(flow, n, r + 1) {
        HasPathShrinks(flow, n, r);
      }
    }
  }

  predicate Grouped(groups: seq<set<Node>>, n: Node) {
    exists k | 0 <= k < |groups| :: n in groups[k]
  }

  /** The state of the loop: `processed` are the nodes of the groups so far. */
  ghost predicate Grouping(flow: Flow, inDegree: map<Node, int>, processed: set<Node>, groups: seq<set<Node>>) {
    && Counts(flow, inDegree, processed)
    && ProcessedBelow(flow, processed, |groups|)
    && GroupsAreLayers(flow, groups)
    && forall n <- processed :: Grouped(groups, n)
  }

  lemma {:induction false} StillUnprocessed(sorted: seq<Node>, processed: set<Node>) returns (j: nat)
    requires Distinct(sorted) && |processed| < |sorted|
    ensures j < |sorted| && sorted[j] !in processed
  {
    if forall k | 0 <= k < |sorted| :: sorted[k] in processed {
      DistinctFits(sorted, processed);
      assert false;
    }
    j :| 0 <= j < |sorted| && sorted[j] !in processed;
  }

  /** While nodes are left the next group is not empty, and it is the next layer. */
  lemma {:induction false} NextGroup(
      flow: Flow, sorted: seq<Node>, inDegree: map<Node, int>, processed: set<Node>, groups: seq<set<Node>>)
    requires IsTopologicalOrder(flow, sorted) && Grouping(flow, inDegree, processed, groups)
    requires |processed| < |sorted|
    ensures forall n <- sorted :: n in inDegree
    ensures var group := ReadyNodes(sorted, inDegree, processed);
      && group !! processed
      && IsLayer(flow, group, |groups|)
      && ProcessedBelow(flow, processed + group, |groups| + 1)
  {
    ReadyAreNextLayer(flow, sorted, inDegree, processed, |groups|);
    var j := StillUnprocessed(sorted, processed);
    SomeNodeIsReady(flow, sorted, inDegree, processed, j);
    NextProcessed(flow, processed, ReadyNodes(sorted, inDegree, processed), |groups|);
  }

  lemma {:induction false} GroupingGrows(
      flow: Flow, inDegree: map<Node, int>, processed: set<Node>, groups: seq<set<Node>>,
      group: set<Node>, inDegree': map<Node, int>)
    requires Grouping(flow, inDegree, processed, groups)
    requires IsLayer(flow, group, |groups|) && ProcessedBelow(flow, processed + group, |groups| + 1)
    requires Counts(flow, inDegree', processed + group)
    ensures Grouping(flow, inDegree', processed + group, groups + [group])
  {
    var longer := groups + [group];
    forall n | n in processed + group ensures Grouped(longer, n) {
      if n in processed {
        assert Grouped(groups, n);
        var k :| 0 <= k < |groups| && n in groups[k];
        assert longer[k] == groups[k];
      } else {
        assert longer[|groups|] == group;
      }
    }
  }

  lemma {:induction false} AllProcessed(flow: Flow, sorted: seq<Node>, processed: set<Node>, r: nat)
    requires IsTopologicalOrder(flow, sorted) && ProcessedBelow(flow, processed, r) && |processed| >= |sorted|
    ensures forall n <- flow.nodes :: n in processed
  {
    DistinctCount(sorted);
    assert processed <= Elements(sorted);
    assert Elements(sorted) == processed + (Elements(sorted) - processed);
    assert |Elements(sorted)| == |processed| + |Elements(sorted) - processed|;
    assert forall n <- flow.nodes :: n in Elements(sorted);
  }

  lemma {:induction false} DisjointCount(x: set<Node>, y: set<Node>)
    requires x !! y && y != {}
    ensures |x + y| > |x|
  {
    assert |x + y| == |x| + |y|;
  }

  /** The groups are exactly the layers of longest-path depth, none is empty, and together
      they hold every node; the `break` is never taken. */
  method FindParallelGroups(flow: Flow, sorted: seq<Node>) returns (groups: seq<set<Node>>)
    requires TargetsKnown(flow) && IsTopologicalOrder(flow, sorted)
    ensures GroupsAreLayers(flow, groups)
    ensures forall n {:trigger Grouped(groups, n)} | n in flow.nodes :: Grouped(groups, n)
  {
    var ok, inDegree := InDegrees(flow);
    var processed: set<Node> := {};
    groups := [];
    while |processed| < |sorted|
      invariant Grouping(flow, inDegree, processed, groups)
      decreases |sorted| - |processed|
    {
      NextGroup(flow, sorted, inDegree, processed, groups);
      var group := ReadyNodes(sorted, inDegree, processed);
      if group == {} {
        break;
      }
      DisjointCount(processed, group);
      ghost var before := inDegree;
      var after, more := ProcessGroup(flow, group, inDegree, processed);
      GroupingGrows(flow, before, processed, groups, group, after);
      groups := groups + [group];
      inDegree, processed := after, more;
    }
    AllProcessed(flow, sorted, processed, |groups|);
  }

  // ------------------------------------------------------------------
  // What the layers mean
  // ------------------------------------------------------------------

  lemma {:induction false} HasPathBelow(flow: Flow, n: Node, j: nat, k: nat)
    requires j <= k && HasPath(flow, n, k)
    ensures HasPath(flow, n, j)
    decreases k
  {
    if j < k {
      HasPathShrinks(flow, n, k - 1);
      HasPathBelow(flow, n, j, k - 1);
    }
  }

  /** No node is in two groups. */
  lemma {:induction false} GroupsAreDisjoint(flow: Flow, groups: seq<set<Node>>, i: nat, j: nat)
    requires GroupsAreLayers(flow, groups) && i < j < |groups|
    ensures groups[i] !! groups[j]
  {
    assert IsLayer(flow, groups[i], i) && IsLayer(flow, groups[j], j);
    forall n | n in groups[i] && n in groups[j] ensures false {
      HasPathBelow(flow, n, i + 1, j);
    }
  }

  /** Every edge leads to a strictly later group. */
  lemma {:induction false} EdgesAscend(flow: Flow, groups: seq<set<Node>>, e: nat, i: nat, j: nat)
    requires GroupsAreLayers(flow, groups) && e < |flow.edges| && i < |groups| && j < |groups|
    requires flow.edges[e].source in groups[i] && flow.edges[e].target in groups[j]
    ensures i < j
  {
    assert IsLayer(flow, groups[i], i) && IsLayer(flow, groups[j], j);
    assert HasPath(flow, flow.edges[e].target, i + 1);
    if j <= i {
      HasPathBelow(flow, flow.edges[e].target, j + 1, i + 1);
    }
  }

  /** An assignment of nodes to rounds in which every edge goes to a later round. */
  ghost predicate RespectsEdges(flow: Flow, rounds: seq<set<Node>>) {
    && (forall n {:trigger Grouped(rounds, n)} | n in flow.nodes :: Grouped(rounds, n))
    && forall e, i, j | 0 <= e < |flow.edges| && 0 <= i < |rounds| && 0 <= j < |rounds|
        && flow.edges[e].source in rounds[i] && flow.edges[e].target in rounds[j] :: i < j
  }

  /** A node of depth `k` cannot run before round `k`. */
  lemma {:induction false} DepthBoundsRound(flow: Flow, rounds: seq<set<Node>>, n: Node, k: nat, j: nat)
    requires SourcesKnown(flow) && RespectsEdges(flow, rounds)
    requires HasPath(flow, n, k) && j < |rounds| && n in rounds[j]
    ensures k <= j
    decreases k
  {
    if k > 0 {
      var e :| 0 <= e < |flow.edges| && flow.edges[e].target == n && HasPath(flow, flow.edges[e].source, k - 1);
      var m := flow.edges[e].source;
      assert Grouped(rounds, m);
      var i :| 0 <= i < |rounds| && m in rounds[i];
      DepthBoundsRound(flow, rounds, m, k - 1, i);
    }
  }

  /** No schedule that respects the edges has fewer rounds, and none runs a node earlier. */
  lemma {:induction false} NoFewerRounds(flow: Flow, groups: seq<set<Node>>, rounds: seq<set<Node>>)
    requires SourcesKnown(flow) && GroupsAreLayers(flow, groups) && RespectsEdges(flow, rounds)
    ensures |groups| <= |rounds|
    ensures forall n, k, j | 0 <= k < |groups| && 0 <= j < |rounds| && n in groups[k] && n in rounds[j] :: k <= j
  {
    forall n, k, j | 0 <= k < |groups| && 0 <= j < |rounds| && n in groups[k] && n in rounds[j] ensures k <= j {
      assert IsLayer(flow, groups[k], k);
      DepthBoundsRound(flow, rounds, n, k, j);
    }
    if groups != [] {
      var k := |groups| - 1;
      assert IsLayer(flow, groups[k], k);
      var n :| n in groups[k];
      assert Grouped(rounds, n);
      var j :| 0 <= j < |rounds| && n in rounds[j];
      DepthBoundsRound(flow, rounds, n, k, j);
    }
  }

  /** The groups themselves are such a schedule. */
  lemma {:induction false} LayersRespectEdges(flow: Flow, groups: seq<set<Node>>)
    requires GroupsAreLayers(flow, groups) && forall n {:trigger Grouped(groups, n)} | n in flow.nodes :: Grouped(groups, n)
    ensures RespectsEdges(flow, groups)
  {
    forall e, i, j | 0 <= e < |flow.edges| && 0 <= i < |groups| && 0 <= j < |groups|
        && flow.edges[e].source in groups[i] && flow.edges[e].target in groups[j] ensures i < j {
      EdgesAscend(flow, groups, e, i, j);
    }
  }
}
