/** Kahn's topological sort with cycle detection: `FlowEngine._topological_sort` of
    aperag/flow/engine.py (`FlowInstance._topological_sort` has the same code). */
module FlowSort {
  import opened FlowGraph

  /** A missing edge target is a dictionary lookup that fails. */
  datatype SortResult = Sorted(order: seq<Node>) | CycleError | KeyError

  function Elements<T>(s: seq<T>): set<T> {
    set x | x in s
  }

  lemma {:induction false} ElementsSnoc<T>(s: seq<T>, x: T)
    ensures Elements(s + [x]) == Elements(s) + {x}
  {
  }

  lemma {:induction false} DistinctCount<T(!new)>(s: seq<T>)
    requires Distinct(s)
    ensures |Elements(s)| == |s|
    decreases |s|
  {
    if s != [] {
      var n := |s| - 1;
      DistinctCount(s[..n]);
      assert s == s[..n] + [s[n]];
      ElementsSnoc(s[..n], s[n]);
    }
  }

  lemma {:induction false} SubsetOfSameSize<T(!new)>(a: set<T>, b: set<T>)
    requires a <= b && |a| == |b|
    ensures a == b
  {
    assert b == a + (b - a);
    assert |b| == |a| + |b - a|;
  }

  // ------------------------------------------------------------------
  // In-degrees
  // ------------------------------------------------------------------

  /** The dictionary holds, for every node, the edges whose source is not done yet. */
  ghost predicate Counts(flow: Flow, inDegree: map<Node, int>, done: set<Node>) {
    inDegree.Keys == Elements(flow.nodes) && forall n <- flow.nodes :: inDegree[n] == InCount(flow.edges, done, n)
  }

  /** Builds the in-degree dictionary; fails on an unknown target. */
  method InDegrees(flow: Flow) returns (ok: bool, inDegree: map<Node, int>)
    ensures ok == TargetsKnown(flow)
    ensures ok ==> Counts(flow, inDegree, {})
  {
    inDegree := map n | n in flow.nodes :: 0;
    for k := 0 to |flow.edges|
      invariant forall i | 0 <= i < k :: flow.edges[i].target in flow.nodes
      invariant inDegree.Keys == Elements(flow.nodes)
      invariant forall n <- flow.nodes :: inDegree[n] == InCount(flow.edges[..k], {}, n)
    {
      var target := flow.edges[k].target;
      if target !in inDegree {
        return false, inDegree;
      }
      inDegree := inDegree[target := inDegree[target] + 1];
      assert flow.edges[..k + 1] == flow.edges[..k] + [flow.edges[k]];
      forall n <- flow.nodes ensures inDegree[n] == InCount(flow.edges[..k + 1], {}, n) {
        InCountAppend(flow.edges[..k], [flow.edges[k]], {}, n);
        assert [flow.edges[k]][1..] == [];
      }
    }
    assert flow.edges[..|flow.edges|] == flow.edges;
    ok := true;
  }

  /** Mid-way through the edges: those before `k` no longer count `v`. */
  ghost predicate CountsFrom(flow: Flow, inDegree: map<Node, int>, done: set<Node>, v: Node, k: nat)
    requires k <= |flow.edges|
  {
    && inDegree.Keys == Elements(flow.nodes)
    && forall n <- flow.nodes ::
      inDegree[n] == InCount(flow.edges[..k], done + {v}, n) + InCount(flow.edges[k..], done, n)
  }

  lemma {:induction false} CountsStep(flow: Flow, before: map<Node, int>, after: map<Node, int>, done: set<Node>,
      v: Node, k: nat)
    requires k < |flow.edges| && flow.edges[k].target in flow.nodes && v !in done
    requires CountsFrom(flow, before, done, v, k)
    requires after == if flow.edges[k].source == v then before[flow.edges[k].target := before[flow.edges[k].target] - 1] else before
    ensures CountsFrom(flow, after, done, v, k + 1)
    ensures flow.edges[k].source == v ==> before[flow.edges[k].target] > 0
  {
    var e, rest := flow.edges[k], flow.edges[k + 1..];
    assert flow.edges[k..][0] == e && flow.edges[k..][1..] == rest;
    assert flow.edges[..k + 1] == flow.edges[..k] + [e];
    assert [e][1..] == [];
    forall n <- flow.nodes
      ensures after[n] == InCount(flow.edges[..k + 1], done + {v}, n) + InCount(rest, done, n)
    {
      InCountAppend(flow.edges[..k], [e], done + {v}, n);
      assert InCount([e], done + {v}, n) == if e.target == n && e.source !in done + {v} then 1 else 0;
    }
  }

  lemma {:induction false} CountsStart(flow: Flow, inDegree: map<Node, int>, done: set<Node>, v: Node)
    requires Counts(flow, inDegree, done)
    ensures CountsFrom(flow, inDegree, done, v, 0)
  {
    assert flow.edges[0..] == flow.edges && flow.edges[..0] == [];
  }

  lemma {:induction false} CountsEnd(flow: Flow, inDegree: map<Node, int>, done: set<Node>, v: Node)
    requires CountsFrom(flow, inDegree, done, v, |flow.edges|)
    ensures Counts(flow, inDegree, done + {v})
  {
    assert flow.edges[|flow.edges|..] == [] && flow.edges[..|flow.edges|] == flow.edges;
  }

  // ------------------------------------------------------------------
  // The queue
  // ------------------------------------------------------------------

  /** Sorted and queued nodes are distinct and are exactly those of in-degree 0. */
  ghost predicate ZerosListed(flow: Flow, inDegree: map<Node, int>, listed: seq<Node>)
    requires inDegree.Keys == Elements(flow.nodes)
  {
    Distinct(listed) && forall n :: n in listed <==> n in flow.nodes && inDegree[n] == 0
  }

  method InitialQueue(flow: Flow, inDegree: map<Node, int>) returns (queue: seq<Node>)
    requires Distinct(flow.nodes) && inDegree.Keys == Elements(flow.nodes)
    ensures ZerosListed(flow, inDegree, queue)
  {
    queue := [];
    for i := 0 to |flow.nodes|
      invariant Distinct(queue)
      invariant forall n :: n in queue <==> n in flow.nodes[..i] && inDegree[n] == 0
    {
      if inDegree[flow.nodes[i]] == 0 {
        queue := queue + [flow.nodes[i]];
      }
    }
  }

  /** Takes `v` out of the counts and queues the nodes that reach in-degree 0. */
  method ReleaseSuccessors(flow: Flow, v: Node, inDegree0: map<Node, int>, queue0: seq<Node>, ghost sorted: seq<Node>)
    returns (inDegree: map<Node, int>, queue: seq<Node>)
    requires TargetsKnown(flow) && v !in sorted
    requires Counts(flow, inDegree0, Elements(sorted)) && ZerosListed(flow, inDegree0, sorted + [v] + queue0)
    ensures Counts(flow, inDegree, Elements(sorted + [v])) && ZerosListed(flow, inDegree, sorted + [v] + queue)
  {
    inDegree, queue := inDegree0, queue0;
    ghost var done := Elements(sorted);
    CountsStart(flow, inDegree, done, v);
    for k := 0 to |flow.edges|
      invariant CountsFrom(flow, inDegree, done, v, k)
      invariant ZerosListed(flow, inDegree, sorted + [v] + queue)
    {
      var edge := flow.edges[k];
      ghost var before := inDegree;
      if edge.source == v {
        inDegree := inDegree[edge.target := inDegree[edge.target] - 1];
        CountsStep(flow, before, inDegree, done, v, k);
        if inDegree[edge.target] == 0 {
          ListMore(flow, before, inDegree, sorted + [v] + queue, edge.target);
          assert (sorted + [v] + queue) + [edge.target] == sorted + [v] + (queue + [edge.target]);
          queue := queue + [edge.target];
        }
      } else {
        CountsStep(flow, before, inDegree, done, v, k);
      }
    }
    CountsEnd(flow, inDegree, done, v);
    ElementsSnoc(sorted, v);
  }

  lemma {:induction false} ListMore(flow: Flow, before: map<Node, int>, after: map<Node, int>, listed: seq<Node>, n: Node)
    requires before.Keys == after.Keys == Elements(flow.nodes) && n in flow.nodes
    requires before[n] > 0 && after == before[n := 0]
    requires ZerosListed(flow, before, listed)
    ensures ZerosListed(flow, after, listed + [n])
  {
  }

  // ------------------------------------------------------------------
  // The sort
  // ------------------------------------------------------------------

  ghost predicate AllSourcesBefore(flow: Flow, order: seq<Node>) {
    forall j | 0 <= j < |order| :: SourcesBefore(flow, order, j)
  }

  lemma {:induction false} SourcesBeforeSnoc(flow: Flow, inDegree: map<Node, int>, sorted: seq<Node>, v: Node)
    requires Counts(flow, inDegree, Elements(sorted)) && v in flow.nodes && inDegree[v] == 0
    requires AllSourcesBefore(flow, sorted)
    ensures AllSourcesBefore(flow, sorted + [v])
  {
    var order := sorted + [v];
    InCountZero(flow.edges, Elements(sorted), v);
    forall j | 0 <= j < |order| ensures SourcesBefore(flow, order, j) {
      if j < |sorted| {
        assert SourcesBefore(flow, sorted, j);
        assert order[..j] == sorted[..j];
      } else {
        assert order[..j] == sorted;
      }
    }
  }

  /** The state of the main loop. */
  ghost predicate Sorting(flow: Flow, inDegree: map<Node, int>, sorted: seq<Node>, queue: seq<Node>) {
    && Counts(flow, inDegree, Elements(sorted))
    && ZerosListed(flow, inDegree, sorted + queue)
    && AllSourcesBefore(flow, sorted)
  }

  method SortStep(flow: Flow, inDegree0: map<Node, int>, sorted0: seq<Node>, queue0: seq<Node>)
    returns (inDegree: map<Node, int>, sorted: seq<Node>, queue: seq<Node>)
    requires TargetsKnown(flow) && queue0 != [] && Sorting(flow, inDegree0, sorted0, queue0)
    ensures Sorting(flow, inDegree, sorted, queue)
    ensures |sorted| == |sorted0| + 1
  {
    var v := queue0[0];
    assert (sorted0 + queue0)[|sorted0|] == v;
    assert forall i | 0 <= i < |sorted0| :: (sorted0 + queue0)[i] == sorted0[i];
    assert sorted0 + queue0 == sorted0 + [v] + queue0[1..];
    SourcesBeforeSnoc(flow, inDegree0, sorted0, v);
    sorted := sorted0 + [v];
    inDegree, queue := ReleaseSuccessors(flow, v, inDegree0, queue0[1..], sorted0);
  }

  lemma {:induction false} SortedFits(flow: Flow, inDegree: map<Node, int>, sorted: seq<Node>, queue: seq<Node>)
    requires Distinct(flow.nodes) && Sorting(flow, inDegree, sorted, queue)
    ensures Distinct(sorted) && Elements(sorted) <= Elements(flow.nodes) && |sorted| + |queue| <= |flow.nodes|
  {
    var listed := sorted + queue;
    assert forall i | 0 <= i < |sorted| :: sorted[i] == listed[i];
    assert forall i | 0 <= i < |listed| :: listed[i] in listed;
    DistinctFits(listed, Elements(flow.nodes));
    DistinctCount(flow.nodes);
  }

  /** When the queue runs dry the sort is complete exactly if all nodes were sorted. */
  lemma {:induction false} SortEnds(flow: Flow, inDegree: map<Node, int>, sorted: seq<Node>)
    requires Distinct(flow.nodes) && Sorting(flow, inDegree, sorted, [])
    ensures |sorted| == |flow.nodes| ==> IsTopologicalOrder(flow, sorted)
    ensures |sorted| != |flow.nodes| ==>
      exists n :: n in flow.nodes && n !in sorted
  {
    SortedFits(flow, inDegree, sorted, []);
    DistinctCount(sorted);
    DistinctCount(flow.nodes);
    if |sorted| == |flow.nodes| {
      SubsetOfSameSize(Elements(sorted), Elements(flow.nodes));
      assert forall n :: n in sorted <==> n in Elements(sorted);
      assert forall n :: n in flow.nodes <==> n in Elements(flow.nodes);
    } else {
      assert Elements(sorted) != Elements(flow.nodes);
      var n :| n in Elements(flow.nodes) && n !in Elements(sorted);
    }
  }

  /** Nodes left over are all fed by nodes left over, so there is a cycle among them. */
  lemma {:induction false} LeftoverHasCycle(flow: Flow, inDegree: map<Node, int>, sorted: seq<Node>, n: Node)
    returns (cycle: seq<Node>)
    requires Sorting(flow, inDegree, sorted, []) && SourcesKnown(flow)
    requires n in flow.nodes && n !in sorted
    ensures IsCycle(flow, cycle)
  {
    var left := Elements(flow.nodes) - Elements(sorted);
    assert sorted + [] == sorted;
    forall m | m in left ensures Fed(flow, left, m) {
      assert inDegree[m] != 0;
      InCountZero(flow.edges, Elements(sorted), m);
      var i :| 0 <= i < |flow.edges| && flow.edges[i].target == m && flow.edges[i].source !in Elements(sorted);
      assert Edge(flow.edges[i].source, m) == flow.edges[i];
      assert flow.edges[i].source in left;
    }
    assert IsPath(flow, [n]);
    cycle := StuckHasCycle(flow, left, [n]);
  }

  /** A topological order excludes cycles and unknown sources. */
  lemma {:induction false} OrderExcludesCycles(flow: Flow, order: seq<Node>)
    requires TargetsKnown(flow) && IsTopologicalOrder(flow, order)
    ensures SourcesKnown(flow) && Acyclic(flow)
  {
    forall i | 0 <= i < |flow.edges| ensures flow.edges[i].source in flow.nodes {
      assert flow.edges[i].target in order;
      var j := IndexOf(order, flow.edges[i].target);
      assert SourcesBefore(flow, order, j);
      assert flow.edges[i].source in order;
    }
    forall path: seq<Node> ensures !IsCycle(flow, path) {
      if IsCycle(flow, path) {
        assert Hop(flow, path, 1);
        var e :| 0 <= e < |flow.edges| && flow.edges[e] == Edge(path[0], path[1]);
        assert flow.edges[e].source in order;
        PathClimbs(flow, order, path, |path| - 1);
      }
    }
  }

  /** The sort succeeds exactly on a non-empty acyclic flow whose edges join known nodes; it
      then yields a topological order. On a cycle error with nodes and known sources there is
      a cycle indeed. */
  method TopologicalSort(flow: Flow) returns (r: SortResult)
    requires Distinct(flow.nodes)
    ensures r.KeyError? <==> !TargetsKnown(flow)
    ensures r.Sorted? <==> flow.nodes != [] && TargetsKnown(flow) && SourcesKnown(flow) && Acyclic(flow)
    ensures r.Sorted? ==> IsTopologicalOrder(flow, r.order)
    ensures r.CycleError? && flow.nodes != [] && SourcesKnown(flow) ==> exists cycle :: IsCycle(flow, cycle)
  {
    var ok, inDegree := InDegrees(flow);
    if !ok {
      return KeyError;
    }
    var queue := InitialQueue(flow, inDegree);
    var sorted: seq<Node> := [];
    assert sorted + queue == queue && Elements(sorted) == {};
    if |queue| == 0 {
      if flow.nodes != [] && SourcesKnown(flow) {
        ghost var cycle := LeftoverHasCycle(flow, inDegree, [], flow.nodes[0]);
      }
      return CycleError;
    }
    while queue != []
      invariant Sorting(flow, inDegree, sorted, queue) && |sorted| + |queue| > 0
      decreases |flow.nodes| - |sorted|
    {
      SortedFits(flow, inDegree, sorted, queue);
      inDegree, sorted, queue := SortStep(flow, inDegree, sorted, queue);
    }
    SortEnds(flow, inDegree, sorted);
    if |sorted| != |flow.nodes| {
      if SourcesKnown(flow) {
        ghost var n :| n in flow.nodes && n !in sorted;
        ghost var cycle := LeftoverHasCycle(flow, inDegree, sorted, n);
      }
      return CycleError;
    }
    OrderExcludesCycles(flow, sorted);
    return Sorted(sorted);
  }
}
