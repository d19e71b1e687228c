/** Execution of a flow group by group: the main loop of `FlowEngine.execute_flow`,
    `_execute_node_group` and `_execute_node` of aperag/flow/engine.py.

    The coroutines of one group interleave at their awaits. A node binds its inputs from the
    outputs present when its coroutine starts, and sets its output when its runner returns.
    A failing node does not stop its siblings (asyncio.gather does not cancel them), but no
    later group starts. */
module FlowExecution {
  import opened Common
  import opened FlowGraph
  import opened FlowSort
  import opened FlowLayers

  /** Deterministic runners: `bind` resolves the inputs of a node from the outputs so far,
      `run` computes its output; either may fail. */
  datatype Runners<!In, !Out> = Runners(
    bind: (Node, map<Node, Out>) -> Option<In>,
    run: (Node, In) -> Option<Out>)

  function Exec<In, Out>(r: Runners<In, Out>, n: Node, outputs: map<Node, Out>): Option<Out> {
    var input := r.bind(n, outputs);
    if input.None? then None else r.run(n, input.value)
  }

  // ------------------------------------------------------------------
  // Ancestors
  // ------------------------------------------------------------------

  ghost predicate Reaches(flow: Flow, a: Node, n: Node) {
    exists path :: IsPath(flow, path) && |path| >= 2 && path[0] == a && path[|path| - 1] == n
  }

  ghost function Ancestors(flow: Flow, n: Node): set<Node> {
    set a | a in flow.nodes && Reaches(flow, a, n)
  }

  /** Two output maps agree on a set of nodes. */
  ghost predicate Agree<Out(!new)>(m1: map<Node, Out>, m2: map<Node, Out>, nodes: set<Node>) {
    forall a <- nodes :: (a in m1 <==> a in m2) && (a in m1 ==> m1[a] == m2[a])
  }

  /** The templates of a node refer to outputs of its ancestors only. */
  ghost predicate ReadsAncestorsOnly<In(!new), Out(!new)>(flow: Flow, r: Runners<In, Out>) {
    forall n, m1, m2 | Agree(m1, m2, Ancestors(flow, n)) :: r.bind(n, m1) == r.bind(n, m2)
  }

  // ------------------------------------------------------------------
  // One node after the other
  // ------------------------------------------------------------------

  /** Running the nodes in the given order, stopping at the first failure. */
  function Sequential<In, Out>(r: Runners<In, Out>, order: seq<Node>): Option<map<Node, Out>> {
    if order == [] then Some(map[])
    else
      var n := order[|order| - 1];
      var before := Sequential(r, order[..|order| - 1]);
      if before.None? then None
      else
        var out := Exec(r, n, before.value);
        if out.None? then None else Some(before.value[n := out.value])
  }

  // ------------------------------------------------------------------
  // Group by group, interleaved
  // ------------------------------------------------------------------

  /** `running` holds the bound inputs of the nodes whose runner has not returned yet. */
  datatype State<In, Out> = State(
    group: nat,
    running: map<Node, In>,
    outputs: map<Node, Out>,
    failed: set<Node>)

  datatype Step = Start(node: Node) | Finish(node: Node) | Advance

  ghost predicate Init<In(!new), Out(!new)>(st: State<In, Out>) {
    st == State(0, map[], map[], {})
  }

  predicate Enabled<In, Out>(groups: seq<set<Node>>, st: State<In, Out>, step: Step) {
    match step
    case Start(n) =>
      st.group < |groups| && n in groups[st.group] && n !in st.running && n !in st.outputs && n !in st.failed
    case Finish(n) => n in st.running
    case Advance =>
      st.group < |groups| && st.failed == {} && forall n <- groups[st.group] :: n in st.outputs
  }

  function After<In, Out>(r: Runners<In, Out>, groups: seq<set<Node>>, st: State<In, Out>, step: Step): State<In, Out>
    requires Enabled(groups, st, step)
  {
    match step
    case Start(n) =>
      var input := r.bind(n, st.outputs);
      if input.None? then st.(failed := st.failed + {n})
      else st.(running := st.running[n := input.value])
    case Finish(n) =>
      var out := r.run(n, st.running[n]);
      if out.None? then st.(running := st.running - {n}, failed := st.failed + {n})
      else st.(running := st.running - {n}, outputs := st.outputs[n := out.value])
    case Advance => st.(group := st.group + 1)
  }

  /** The state after the given steps. */
  ghost predicate IsRun<In(!new), Out(!new)>(
      r: Runners<In, Out>, groups: seq<set<Node>>, steps: seq<Step>, st: State<In, Out>)
    decreases |steps|
  {
    if steps == [] then Init(st)
    else
      var n := |steps| - 1;
      exists before ::
        && IsRun(r, groups, steps[..n], before)
        && Enabled(groups, before, steps[n])
        && st == After(r, groups, before, steps[n])
  }

  /** What the grouping loop hands over: every node in one group, edges leading forward. */
  ghost predicate Scheduled(flow: Flow, groups: seq<set<Node>>) {
    && TargetsKnown(flow) && SourcesKnown(flow)
    && GroupsAreLayers(flow, groups)
    && forall n {:trigger Grouped(groups, n)} | n in flow.nodes :: Grouped(groups, n)
  }

  /** What `execute_flow` does before it runs anything: sort, then group. */
  method PlanFlow(flow: Flow) returns (sort: SortResult, groups: seq<set<Node>>)
    requires Distinct(flow.nodes)
    ensures sort.Sorted? <==> flow.nodes != [] && TargetsKnown(flow) && SourcesKnown(flow) && Acyclic(flow)
    ensures sort.Sorted? ==> IsTopologicalOrder(flow, sort.order) && Scheduled(flow, groups)
  {
    groups := [];
    sort := TopologicalSort(flow);
    if sort.Sorted? {
      groups := FindParallelGroups(flow, sort.order);
    }
  }

  ghost predicate InGroupBelow(groups: seq<set<Node>>, n: Node, g: nat) {
    exists k | 0 <= k < |groups| && k < g :: n in groups[k]
  }

  lemma {:induction false} GroupNodesKnown(flow: Flow, groups: seq<set<Node>>, n: Node, g: nat)
    requires GroupsAreLayers(flow, groups) && g < |groups| && n in groups[g]
    ensures n in flow.nodes
  {
    assert IsLayer(flow, groups[g], g);
  }

  lemma {:induction false} PathAscends(flow: Flow, groups: seq<set<Node>>, path: seq<Node>, k: nat, g: nat)
    returns (h: nat)
    requires Scheduled(flow, groups) && IsPath(flow, path) && k < |path|
    requires g < |groups| && path[0] in groups[g]
    ensures h < |groups| && path[k] in groups[h] && g + k <= h
  {
    if k == 0 {
      h := g;
    } else {
      var h' := PathAscends(flow, groups, path, k - 1, g);
      assert Hop(flow, path, k);
      var e :| 0 <= e < |flow.edges| && flow.edges[e] == Edge(path[k - 1], path[k]);
      assert flow.edges[e].target in flow.nodes;
      assert Grouped(groups, path[k]);
      h :| 0 <= h < |groups| && path[k] in groups[h];
      EdgesAscend(flow, groups, e, h', h);
    }
  }

  /** Ancestors are in strictly earlier groups. */
  lemma {:induction false} AncestorsAreEarlier(flow: Flow, groups: seq<set<Node>>, n: Node, g: nat)
    requires Scheduled(flow, groups) && g < |groups| && n in groups[g]
    ensures forall a <- Ancestors(flow, n) :: InGroupBelow(groups, a, g)
  {
    forall a | a in Ancestors(flow, n) ensures InGroupBelow(groups, a, g) {
      var path :| IsPath(flow, path) && |path| >= 2 && path[0] == a && path[|path| - 1] == n;
      assert Grouped(groups, a);
      var k :| 0 <= k < |groups| && a in groups[k];
      var h := PathAscends(flow, groups, path, |path| - 1, k);
      if h < g {
        GroupsAreDisjoint(flow, groups, h, g);
      } else if g < h {
        GroupsAreDisjoint(flow, groups, g, h);
      }
    }
  }

  predicate InGroup(groups: seq<set<Node>>, n: Node, g: nat) {
    g < |groups| && n in groups[g]
  }

  /** Outputs are set for all earlier groups and only up to the current one; nodes that run or
      failed are in the current group. */
  ghost predicate Progress<In(!new), Out(!new)>(flow: Flow, groups: seq<set<Node>>, st: State<In, Out>) {
    && st.group <= |groups|
    && (forall n | InGroupBelow(groups, n, st.group) :: n in st.outputs)
    && (forall n <- st.outputs :: InGroupBelow(groups, n, st.group + 1))
    && (forall n <- st.running :: InGroup(groups, n, st.group))
    && (forall n <- st.failed :: InGroup(groups, n, st.group))
    && st.running.Keys !! st.outputs.Keys && st.failed !! st.outputs.Keys && st.running.Keys !! st.failed
  }

  lemma {:induction false} GroupAbove(flow: Flow, groups: seq<set<Node>>, n: Node, g: nat)
    requires GroupsAreLayers(flow, groups) && g < |groups| && n in groups[g]
    ensures InGroupBelow(groups, n, g + 1) && !InGroupBelow(groups, n, g)
  {
    if InGroupBelow(groups, n, g) {
      var k :| 0 <= k < |groups| && k < g && n in groups[k];
      GroupsAreDisjoint(flow, groups, k, g);
    }
  }

  lemma {:induction false} ProgressStep<In(!new), Out(!new)>(
      flow: Flow, r: Runners<In, Out>, groups: seq<set<Node>>, st: State<In, Out>, step: Step)
    requires Scheduled(flow, groups) && Progress(flow, groups, st) && Enabled(groups, st, step)
    ensures Progress(flow, groups, After(r, groups, st, step))
  {
    var next := After(r, groups, st, step);
    match step
    case Start(n) =>
    case Finish(n) =>
      assert InGroup(groups, n, st.group);
      GroupAbove(flow, groups, n, st.group);
    case Advance =>
      forall n | InGroupBelow(groups, n, next.group) ensures n in next.outputs {
        var k :| 0 <= k < |groups| && k < next.group && n in groups[k];
        if k < st.group {
          assert InGroupBelow(groups, n, st.group);
        }
      }
      forall n | n in next.outputs ensures InGroupBelow(groups, n, next.group + 1) {
        var k :| 0 <= k < |groups| && k < st.group + 1 && n in groups[k];
      }
  }

  lemma {:induction false} RunProgress<In(!new), Out(!new)>(
      flow: Flow, r: Runners<In, Out>, groups: seq<set<Node>>, steps: seq<Step>, st: State<In, Out>)
    requires Scheduled(flow, groups) && IsRun(r, groups, steps, st)
    ensures Progress(flow, groups, st)
    decreases |steps|
  {
    if steps != [] {
      var n := |steps| - 1;
      var before :| IsRun(r, groups, steps[..n], before) && Enabled(groups, before, steps[n])
                    && st == After(r, groups, before, steps[n]);
      RunProgress(flow, r, groups, steps[..n], before);
      ProgressStep(flow, r, groups, before, steps[n]);
    }
  }

  /** In every run, a failed one included, a node starts only after all its ancestors, so all
      its predecessors, have set their outputs. */
  lemma {:induction false} StartsAfterAncestors<In(!new), Out(!new)>(
      flow: Flow, r: Runners<In, Out>, groups: seq<set<Node>>, steps: seq<Step>, st: State<In, Out>, n: Node)
    requires Scheduled(flow, groups) && IsRun(r, groups, steps, st)
    requires Enabled(groups, st, Start(n))
    ensures Ancestors(flow, n) <= st.outputs.Keys
    ensures forall i | 0 <= i < |flow.edges| && flow.edges[i].target == n :: flow.edges[i].source in st.outputs
  {
    RunProgress(flow, r, groups, steps, st);
    AncestorsAreEarlier(flow, groups, n, st.group);
    forall a | a in Ancestors(flow, n) ensures a in st.outputs {
      assert InGroupBelow(groups, a, st.group);
    }
    forall i | 0 <= i < |flow.edges| && flow.edges[i].target == n ensures flow.edges[i].source in st.outputs {
      var path := [flow.edges[i].source, n];
      assert flow.edges[i] == Edge(path[0], path[1]);
      assert IsPath(flow, path);
      assert flow.edges[i].source in Ancestors(flow, n);
    }
  }

  /** A run without failures can always go on until the last group is done. */
  lemma {:induction false} NeverStuck<In(!new), Out(!new)>(
      flow: Flow, r: Runners<In, Out>, groups: seq<set<Node>>, steps: seq<Step>, st: State<In, Out>)
    requires Scheduled(flow, groups) && IsRun(r, groups, steps, st)
    requires st.failed == {} && st.group < |groups|
    ensures exists step :: Enabled(groups, st, step)
  {
    if st.running != map[] {
      var n :| n in st.running;
      assert Enabled(groups, st, Finish(n));
    } else if n :| n in groups[st.group] && n !in st.outputs {
      assert Enabled(groups, st, Start(n));
    } else {
      assert Enabled(groups, st, Advance);
    }
  }

  /** Nodes that have begun: running, finished or failed. */
  function Begun<In, Out>(st: State<In, Out>): set<Node> {
    st.running.Keys + st.outputs.Keys + st.failed
  }

  /** One for each group done, one for each node running, two for each node that is done. */
  function Spent<In, Out>(st: State<In, Out>): nat {
    st.group + |st.running.Keys| + 2 * |st.outputs.Keys| + 2 * |st.failed|
  }

  lemma {:induction false} KeyAdded<T>(m: map<Node, T>, n: Node, v: T)
    requires n !in m
    ensures |m[n := v].Keys| == |m.Keys| + 1
  {
    assert m[n := v].Keys == m.Keys + {n};
  }

  lemma {:induction false} KeyRemoved<T>(m: map<Node, T>, n: Node)
    requires n in m
    ensures |(m - {n}).Keys| == |m.Keys| - 1
  {
    assert (m - {n}).Keys == m.Keys - {n};
  }

  lemma {:induction false} StartSpends<In(!new), Out(!new)>(
      r: Runners<In, Out>, groups: seq<set<Node>>, st: State<In, Out>, n: Node)
    requires Enabled(groups, st, Start(n))
    ensures Spent(After(r, groups, st, Start(n))) > Spent(st)
  {
    var input := r.bind(n, st.outputs);
    if input.Some? {
      KeyAdded(st.running, n, input.value);
    }
  }

  lemma {:induction false} FinishSpends<In(!new), Out(!new)>(
      r: Runners<In, Out>, groups: seq<set<Node>>, st: State<In, Out>, n: Node)
    requires Enabled(groups, st, Finish(n)) && n !in st.outputs && n !in st.failed
    ensures Spent(After(r, groups, st, Finish(n))) > Spent(st)
  {
    var out := r.run(n, st.running[n]);
    KeyRemoved(st.running, n);
    if out.Some? {
      KeyAdded(st.outputs, n, out.value);
    }
  }

  /** A node takes at most two steps, one to start and one to finish. */
  lemma {:induction false} RunSpends<In(!new), Out(!new)>(
      flow: Flow, r: Runners<In, Out>, groups: seq<set<Node>>, steps: seq<Step>, st: State<In, Out>)
    requires Scheduled(flow, groups) && IsRun(r, groups, steps, st)
    ensures |steps| <= Spent(st)
    decreases |steps|
  {
    if steps != [] {
      var k := |steps| - 1;
      var before :| IsRun(r, groups, steps[..k], before) && Enabled(groups, before, steps[k])
                    && st == After(r, groups, before, steps[k]);
      RunSpends(flow, r, groups, steps[..k], before);
      match steps[k]
      case Start(n) =>
        StartSpends(r, groups, before, n);
      case Finish(n) =>
        RunProgress(flow, r, groups, steps[..k], before);
        FinishSpends(r, groups, before, n);
      case Advance =>
    }
  }

  lemma {:induction false} BegunAreKnown<In(!new), Out(!new)>(flow: Flow, groups: seq<set<Node>>, st: State<In, Out>)
    requires Scheduled(flow, groups) && Progress(flow, groups, st)
    ensures Begun(st) <= Elements(flow.nodes)
  {
    forall n <- Begun(st)
      ensures n in flow.nodes
    {
      if n in st.outputs {
        assert InGroupBelow(groups, n, st.group + 1);
        var g :| 0 <= g < |groups| && g < st.group + 1 && n in groups[g];
        GroupNodesKnown(flow, groups, n, g);
      } else {
        assert InGroup(groups, n, st.group);
        GroupNodesKnown(flow, groups, n, st.group);
      }
    }
  }

  lemma {:induction false} DisjointUnion<T>(a: set<T>, b: set<T>, c: set<T>)
    requires a !! b && c !! b && a !! c
    ensures |a + b + c| == |a| + |b| + |c|
  {
    assert (a + b) !! c;
  }

  lemma {:induction false} SubsetCount<T>(a: set<T>, b: set<T>)
    requires a <= b
    ensures |a| <= |b|
  {
    assert b == a + (b - a);
  }

  lemma {:induction false} ElementsCount<T>(s: seq<T>)
    ensures |Elements(s)| <= |s|
  {
    if s == [] {
      assert Elements(s) == {};
    } else {
      var n := |s| - 1;
      assert s == s[..n] + [s[n]];
      ElementsSnoc(s[..n], s[n]);
      ElementsCount(s[..n]);
    }
  }

  /** No run, failed or not, has more than two steps for each node and one for each group. */
  lemma {:induction false} RunsAreBounded<In(!new), Out(!new)>(
      flow: Flow, r: Runners<In, Out>, groups: seq<set<Node>>, steps: seq<Step>, st: State<In, Out>)
    requires Scheduled(flow, groups) && IsRun(r, groups, steps, st)
    ensures |steps| <= 2 * |flow.nodes| + |groups|
  {
    RunSpends(flow, r, groups, steps, st);
    RunProgress(flow, r, groups, steps, st);
    BegunAreKnown(flow, groups, st);
    DisjointUnion(st.running.Keys, st.outputs.Keys, st.failed);
    SubsetCount(Begun(st), Elements(flow.nodes));
    ElementsCount(flow.nodes);
  }

  /** So a run that fails nowhere and cannot go on has done all groups. */
  lemma {:induction false} StoppedRunsAreComplete<In(!new), Out(!new)>(
      flow: Flow, r: Runners<In, Out>, groups: seq<set<Node>>, steps: seq<Step>, st: State<In, Out>, order: seq<Node>)
    requires Scheduled(flow, groups) && ReadsAncestorsOnly(flow, r)
    requires IsRun(r, groups, steps, st) && IsTopologicalOrder(flow, order)
    requires st.failed == {} && forall step :: !Enabled(groups, st, step)
    ensures st.group == |groups| && Sequential(r, order) == Some(st.outputs)
  {
    if st.group < |groups| {
      NeverStuck(flow, r, groups, steps, st);
    }
    RunProgress(flow, r, groups, steps, st);
    ScheduleIndependence(flow, r, groups, steps, st, order);
  }

  // ------------------------------------------------------------------
  // The outputs do not depend on the schedule
  // ------------------------------------------------------------------

  /** `m` holds the output of every node whose ancestors all have one, unless it fails. */
  ghost predicate Solves<In(!new), Out(!new)>(flow: Flow, r: Runners<In, Out>, m: map<Node, Out>, nodes: set<Node>) {
    && m.Keys <= nodes
    && forall n {:trigger SolvedAt(flow, r, m, n)} | n in nodes :: SolvedAt(flow, r, m, n)
  }

  ghost predicate SolvedAt<In(!new), Out(!new)>(flow: Flow, r: Runners<In, Out>, m: map<Node, Out>, n: Node) {
    n in m <==> Ancestors(flow, n) <= m.Keys && Succeeds(r, n, m)
  }

  /** The inputs of the node can be bound, its runner returns, and what it returns is its output in `m`. */
  ghost predicate Succeeds<In(!new), Out(!new)>(r: Runners<In, Out>, n: Node, m: map<Node, Out>) {
    var input := r.bind(n, m);
    && input.Some? && r.run(n, input.value).Some?
    && (n in m ==> r.run(n, input.value).value == m[n])
  }

  /** Running nodes one by one, skipping those with an ancestor that failed. */
  ghost function Lenient<In(!new), Out(!new)>(flow: Flow, r: Runners<In, Out>, order: seq<Node>): map<Node, Out> {
    if order == [] then map[]
    else
      var n := order[|order| - 1];
      var m := Lenient(flow, r, order[..|order| - 1]);
      if Ancestors(flow, n) <= m.Keys && Exec(r, n, m).Some? then m[n := Exec(r, n, m).value] else m
  }

  lemma {:induction false} AncestorsComeFirst(flow: Flow, order: seq<Node>, k: nat)
    requires TargetsKnown(flow) && IsTopologicalOrder(flow, order) && k < |order|
    ensures forall a <- Ancestors(flow, order[k]) :: a in order[..k]
  {
    forall a | a in Ancestors(flow, order[k]) ensures a in order[..k] {
      var path :| IsPath(flow, path) && |path| >= 2 && path[0] == a && path[|path| - 1] == order[k];
      assert a in order;
      PathClimbs(flow, order, path, |path| - 1);
      assert IndexOf(order, order[k]) == k;
      assert order[..k][IndexOf(order, a)] == a;
    }
  }

  lemma {:induction false} ExecAgrees<In(!new), Out(!new)>(flow: Flow, r: Runners<In, Out>, n: Node, m1: map<Node,
      Out>, m2: map<Node, Out>)
    requires ReadsAncestorsOnly(flow, r) && Agree(m1, m2, Ancestors(flow, n))
    ensures Exec(r, n, m1) == Exec(r, n, m2) && r.bind(n, m1) == r.bind(n, m2)
    ensures Ancestors(flow, n) <= m1.Keys <==> Ancestors(flow, n) <= m2.Keys
  {
  }

  lemma {:induction false} LenientSolves<In(!new), Out(!new)>(flow: Flow, r: Runners<In, Out>, order: seq<Node>, k: nat)
    requires TargetsKnown(flow) && IsTopologicalOrder(flow, order) && ReadsAncestorsOnly(flow, r) && k <= |order|
    ensures Solves(flow, r, Lenient(flow, r, order[..k]), set n | n in order[..k])
    decreases k
  {
    if k > 0 {
      var n, before, after := order[k - 1], Lenient(flow, r, order[..k - 1]), Lenient(flow, r, order[..k]);
      assert order[..k][..k - 1] == order[..k - 1];
      LenientSolves(flow, r, order, k - 1);
      forall j | 0 <= j < k ensures SolvedAt(flow, r, after, order[j]) {
        AncestorsComeFirst(flow, order, j);
        assert n !in order[..j] && n !in Ancestors(flow, order[j]);
        assert Agree(before, after, Ancestors(flow, order[j]));
        ExecAgrees(flow, r, order[j], before, after);
        if j < k - 1 {
          assert order[j] in order[..k - 1];
          assert SolvedAt(flow, r, before, order[j]);
        } else {
          assert n !in order[..k - 1] && n !in before;
        }
      }
    }
  }

  /** The state of a run agrees with the solution `m`. */
  ghost predicate Consistent<In(!new), Out(!new)>(
      flow: Flow, r: Runners<In, Out>, st: State<In, Out>, m: map<Node, Out>)
  {
    && (forall n <- st.outputs :: n in m && st.outputs[n] == m[n])
    && (forall n <- st.running :: r.bind(n, m) == Some(st.running[n]) && Ancestors(flow, n) <= m.Keys)
    && (forall n <- st.failed :: n !in m && Ancestors(flow, n) <= m.Keys)
  }

  lemma {:induction false} ConsistentStep<In(!new), Out(!new)>(
      flow: Flow, r: Runners<In, Out>, groups: seq<set<Node>>, steps: seq<Step>, st: State<In, Out>, step: Step,
      m: map<Node, Out>)
    requires Scheduled(flow, groups) && ReadsAncestorsOnly(flow, r) && IsRun(r, groups, steps, st)
    requires Solves(flow, r, m, set n | n in flow.nodes)
    requires Consistent(flow, r, st, m) && Enabled(groups, st, step)
    ensures Consistent(flow, r, After(r, groups, st, step), m)
  {
    match step
    case Start(n) =>
      StartsAfterAncestors(flow, r, groups, steps, st, n);
      GroupNodesKnown(flow, groups, n, st.group);
      ExecAgrees(flow, r, n, st.outputs, m);
      assert SolvedAt(flow, r, m, n);
    case Finish(n) =>
      RunProgress(flow, r, groups, steps, st);
      assert InGroup(groups, n, st.group);
      GroupNodesKnown(flow, groups, n, st.group);
      assert SolvedAt(flow, r, m, n);
    case Advance =>
  }

  lemma {:induction false} RunIsConsistent<In(!new), Out(!new)>(
      flow: Flow, r: Runners<In, Out>, groups: seq<set<Node>>, steps: seq<Step>, st: State<In, Out>, m: map<Node, Out>)
    requires Scheduled(flow, groups) && ReadsAncestorsOnly(flow, r) && IsRun(r, groups, steps, st)
    requires Solves(flow, r, m, set n | n in flow.nodes)
    ensures Consistent(flow, r, st, m)
    decreases |steps|
  {
    if steps != [] {
      var n := |steps| - 1;
      var before :| IsRun(r, groups, steps[..n], before) && Enabled(groups, before, steps[n])
                    && st == After(r, groups, before, steps[n]);
      RunIsConsistent(flow, r, groups, steps[..n], before, m);
      ConsistentStep(flow, r, groups, steps[..n], before, steps[n], m);
    }
  }

  /** If no node fails, running one by one gives the solution; it has all nodes only then. */
  lemma {:induction false} SequentialIsLenient<In(!new), Out(!new)>(flow: Flow, r: Runners<In, Out>,
      order: seq<Node>, k: nat)
    requires TargetsKnown(flow) && IsTopologicalOrder(flow, order) && k <= |order|
    ensures var m := Lenient(flow, r, order[..k]);
      if forall n <- order[..k] :: n in m then Sequential(r, order[..k]) == Some(m)
      else Sequential(r, order[..k]).None?
    decreases k
  {
    if k > 0 {
      var n, before, after := order[k - 1], Lenient(flow, r, order[..k - 1]), Lenient(flow, r, order[..k]);
      assert order[..k][..k - 1] == order[..k - 1];
      assert order[..k] == order[..k - 1] + [n];
      SequentialIsLenient(flow, r, order, k - 1);
      AncestorsComeFirst(flow, order, k - 1);
      LenientKeys(flow, r, order[..k - 1]);
      assert n !in order[..k - 1];
      if forall x <- order[..k - 1] :: x in before {
        assert Ancestors(flow, n) <= before.Keys;
      } else {
        var x :| x in order[..k - 1] && x !in before;
        assert x in order[..k] && x !in after;
      }
    }
  }

  lemma {:induction false} LenientKeys<In(!new), Out(!new)>(flow: Flow, r: Runners<In, Out>, order: seq<Node>)
    ensures forall n <- Lenient(flow, r, order) :: n in order
    decreases |order|
  {
    if order != [] {
      LenientKeys(flow, r, order[..|order| - 1]);
    }
  }

  /** Whatever the interleaving, a run that completes has the outputs of running the nodes one
      by one in any topological order; and if that order fails nowhere, no run fails. */
  lemma {:induction false} ScheduleIndependence<In(!new), Out(!new)>(
      flow: Flow, r: Runners<In, Out>, groups: seq<set<Node>>, steps: seq<Step>, st: State<In, Out>, order: seq<Node>)
    requires Scheduled(flow, groups) && ReadsAncestorsOnly(flow, r)
    requires IsRun(r, groups, steps, st) && IsTopologicalOrder(flow, order)
    ensures st.group == |groups| ==> Sequential(r, order) == Some(st.outputs)
    ensures st.group == |groups| ==> forall n <- flow.nodes :: n in st.outputs && Succeeds(r, n, st.outputs)
    ensures Sequential(r, order).Some? ==>
      st.failed == {} && forall n <- st.outputs :: n in Sequential(r, order).value && st.outputs[n] == Sequential(r, order).value[n]
  {
    var m := Lenient(flow, r, order);
    assert order[..|order|] == order;
    LenientSolves(flow, r, order, |order|);
    assert (set n | n in order) == (set n | n in flow.nodes);
    RunIsConsistent(flow, r, groups, steps, st, m);
    SequentialIsLenient(flow, r, order, |order|);
    RunProgress(flow, r, groups, steps, st);
    if st.group == |groups| {
      forall n | n in order ensures n in st.outputs {
        assert Grouped(groups, n);
        assert InGroupBelow(groups, n, st.group);
      }
      assert st.outputs.Keys == m.Keys;
      assert st.outputs == m;
      forall n <- flow.nodes ensures n in st.outputs && Succeeds(r, n, st.outputs) {
        assert n in order && SolvedAt(flow, r, m, n);
      }
    }
    forall n | n in st.failed ensures n in order {
      assert n in st.running.Keys + st.failed;
      GroupNodesKnown(flow, groups, n, st.group);
    }
  }
}
