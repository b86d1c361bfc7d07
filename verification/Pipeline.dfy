/**
 The executor's pipeline: an interpreter over a node list that keeps intermediate results in a map
 and removes them on first use, against the recursive meaning of the graph.
 */
module Pipeline {
  import opened Prelude
  import opened Dag
  import opened Graph
  import opened Ordering
  import opened Planner
  import opened Values

  /**
   Execution of one operator on its input partitions. The node id is an argument so that an arbitrary
   function covers every way the operators' own hash maps may be iterated in one run.
   */
  type Exec = (string, OperatorType, seq<Partition>) -> Result<seq<Partition>, string>

  datatype Stage = Stage(id: string, operator: OperatorType, parents: seq<string>)

  type Results = map<string, seq<Partition>>

  // ----- the interpreter

  /** Takes the results of `parents` out of the map; a parent without a result contributes nothing. */
  function Gather(parents: seq<string>, results: Results): (seq<Partition>, Results) {
    if parents == [] then ([], results)
    else
      var p := parents[|parents| - 1];
      var (ins, rest) := Gather(parents[..|parents| - 1], results);
      if p in rest then (ins + rest[p], rest - {p}) else (ins, rest)
  }

  lemma GatherOne(x: string, results: Results)
    ensures Gather([x], results) == if x in results then (results[x], results - {x}) else ([], results)
  {
    assert [x][..0] == [];
    assert Gather([x][..0], results) == ([], results);
    assert x in results ==> [] + results[x] == results[x];
  }

  lemma GatherBoth(x: string, y: string, results: Results)
    requires x != y && x in results && y in results
    ensures Gather([x, y], results) == (results[x] + results[y], results - {x} - {y})
  {
    assert [x, y][..1] == [x];
    GatherOne(x, results);
  }

  /** The partitions a stage starts from, and the results that remain. */
  function Inputs(empty: Partition, parents: seq<string>, results: Results): (seq<Partition>, Results) {
    if parents == [] then ([empty], results) else Gather(parents, results)
  }

  function Step(exec: Exec, empty: Partition, results: Results, st: Stage): Result<Results, string> {
    var (ins, rest) := Inputs(empty, st.parents, results);
    match exec(st.id, st.operator, ins)
    case Err(e) => Err(e)
    case Ok(out) => Ok(rest[st.id := out])
  }

  function RunStages(exec: Exec, empty: Partition, stages: seq<Stage>): Result<Results, string> {
    if stages == [] then Ok(map[])
    else
      match RunStages(exec, empty, stages[..|stages| - 1])
      case Err(e) => Err(e)
      case Ok(results) => Step(exec, empty, results, stages[|stages| - 1])
  }

  function Run(exec: Exec, empty: Partition, stages: seq<Stage>, finalKey: string): Result<seq<Partition>, string> {
    match RunStages(exec, empty, stages)
    case Err(e) => Err(e)
    case Ok(results) =>
      if finalKey in results then Ok(results[finalKey]) else Err("missing final operator output")
  }

  lemma {:induction false} RunStagesFails(exec: Exec, empty: Partition, stages: seq<Stage>, k: nat)
    requires k <= |stages| && RunStages(exec, empty, stages[..k]).Err?
    ensures RunStages(exec, empty, stages) == RunStages(exec, empty, stages[..k])
    decreases |stages|
  {
    if k == |stages| {
      assert stages[..k] == stages;
    } else {
      var init := stages[..|stages| - 1];
      assert init[..k] == stages[..k];
      RunStagesFails(exec, empty, init, k);
    }
  }

  // ----- tasks

  function OperatorDefs(task: Task): (r: seq<OperatorType>)
    ensures r != []
  {
    if task.operators == [] then [task.operator] else task.operators
  }

  function DefaultId(idx: nat): string {
    "op-" + Decimal(idx)
  }

  function OperatorIds(task: Task): seq<string> {
    if task.operatorIds == [] then seq(|task.operators|, i => if i < 0 then "" else DefaultId(i)) else task.operatorIds
  }

  /** The stage the loop builds for position `idx`, with its fallbacks for missing ids and edges. */
  function StageAt(task: Task, idx: nat): Stage
    requires idx < |OperatorDefs(task)|
  {
    var ids := OperatorIds(task);
    Stage(
      if idx < |ids| then ids[idx] else DefaultId(idx),
      OperatorDefs(task)[idx],
      if idx < |task.incomingEdges| then ParentsOf(task.incomingEdges[idx]) else [])
  }

  function StagesOf(task: Task): (r: seq<Stage>)
    ensures |r| == |OperatorDefs(task)| && forall i :: 0 <= i < |r| ==> r[i] == StageAt(task, i)
  {
    seq(|OperatorDefs(task)|, i requires 0 <= i < |OperatorDefs(task)| => StageAt(task, i))
  }

  function FinalKey(task: Task): string {
    var ids := OperatorIds(task);
    if ids == [] then "final" else ids[|ids| - 1]
  }

  /** Removes the parents' results from the map, one after the other. */
  method TakeInputs(empty: Partition, parents: seq<string>, before: Results)
    returns (partitions: seq<Partition>, results: Results)
    ensures (partitions, results) == Inputs(empty, parents, before)
  {
    partitions, results := [], before;
    if parents == [] {
      partitions := [empty];
    } else {
      for j := 0 to |parents|
        invariant (partitions, results) == Gather(parents[..j], before)
      {
        assert parents[..j + 1][..j] == parents[..j];
        if parents[j] in results {
          partitions, results := partitions + results[parents[j]], results - {parents[j]};
        }
      }
      assert parents[..|parents|] == parents;
    }
  }

  /** The operator loop: stops at the first failing operator. */
  method ExecuteStages(exec: Exec, empty: Partition, stages: seq<Stage>) returns (r: Result<Results, string>)
    ensures r == RunStages(exec, empty, stages)
  {
    var results: Results := map[];
    for idx := 0 to |stages|
      invariant RunStages(exec, empty, stages[..idx]) == Ok(results)
    {
      assert stages[..idx + 1][..idx] == stages[..idx];
      var partitions, rest := TakeInputs(empty, stages[idx].parents, results);
      var out := exec(stages[idx].id, stages[idx].operator, partitions);
      if out.Err? {
        RunStagesFails(exec, empty, stages, idx + 1);
        return Err(out.error);
      }
      results := rest[stages[idx].id := out.value];
    }
    assert stages[..|stages|] == stages;
    r := Ok(results);
  }

  /** The pipeline closure of `execute_sync`. */
  method ExecutePipeline(exec: Exec, empty: Partition, task: Task) returns (r: Result<seq<Partition>, string>)
    ensures r == Run(exec, empty, StagesOf(task), FinalKey(task))
  {
    var results := ExecuteStages(exec, empty, StagesOf(task));
    if results.Err? {
      return Err(results.error);
    }
    var finalKey := FinalKey(task);
    r := if finalKey in results.value then Ok(results.value[finalKey]) else Err("missing final operator output");
  }

  lemma {:induction false} NothingGathered(parents: seq<string>)
    ensures Gather(parents, map[]) == ([], map[])
  {
    if parents != [] {
      NothingGathered(parents[..|parents| - 1]);
    }
  }

  /** The result of the only operator is stored as "op-0" and looked up as "final", so such a task always fails. */
  lemma BareTaskFails(exec: Exec, empty: Partition, task: Task)
    requires task.operators == [] && task.operatorIds == []
    ensures Run(exec, empty, StagesOf(task), FinalKey(task)).Err?
  {
    var st := StageAt(task, 0);
    assert StagesOf(task) == [st] && [st][..0] == [];
    assert RunStages(exec, empty, [st][..0]) == Ok(map[]);
    assert st.id == "op-" + Decimal(0) && st.id[0] == 'o' && "final"[0] == 'f';
    NothingGathered(st.parents);
    assert RunStages(exec, empty, [st]) == Step(exec, empty, map[], st);
  }

  // ----- the meaning of a graph

  ghost predicate WellFormed(spec: DagSpecification) {
    DistinctIds(spec.nodes) && DeclaredEdges(spec) && Acyclic(spec.edges)
  }

  ghost function Ancestors(spec: DagSpecification, id: string): set<string> {
    set x | x in Ids(spec.nodes) && Reaches(spec.edges, x, id)
  }

  lemma AncestorsShrink(spec: DagSpecification, p: string, id: string)
    requires WellFormed(spec) && DagEdge(p, id) in spec.edges
    ensures Ancestors(spec, p) < Ancestors(spec, id)
  {
    EdgeReaches(spec.edges, p, id);
    assert Declared(spec.nodes, DagEdge(p, id).src);
    assert p in Ancestors(spec, id) && p !in Ancestors(spec, p);
    forall x | x in Ancestors(spec, p) ensures x in Ancestors(spec, id) {
      ReachesTrans(spec.edges, x, p, id);
    }
  }

  /** The value of a node: its operator applied to the values of its parents, in edge order. */
  ghost function Eval(spec: DagSpecification, exec: Exec, empty: Partition, id: string): Result<seq<Partition>, string>
    requires WellFormed(spec) && Declared(spec.nodes, id)
    decreases Ancestors(spec, id), 1, 0
  {
    var parents, op := Parents(spec.edges, id), Find(spec.nodes, id).value.operator;
    if parents == [] then exec(id, op, [empty])
    else
      match EvalParents(spec, exec, empty, id, parents)
      case Err(e) => Err(e)
      case Ok(ins) => exec(id, op, ins)
  }

  ghost function EvalParents(spec: DagSpecification, exec: Exec, empty: Partition, id: string, parents: seq<string>)
    : Result<seq<Partition>, string>
    requires WellFormed(spec)
    requires forall p :: p in parents ==> DagEdge(p, id) in spec.edges
    decreases Ancestors(spec, id), 0, |parents|
  {
    if parents == [] then Ok([])
    else
      var p := parents[|parents| - 1];
      AncestorsShrink(spec, p, id);
      assert Declared(spec.nodes, DagEdge(p, id).src);
      match EvalParents(spec, exec, empty, id, parents[..|parents| - 1])
      case Err(e) => Err(e)
      case Ok(ins) =>
        match Eval(spec, exec, empty, p)
        case Err(e) => Err(e)
        case Ok(out) => Ok(ins + out)
  }

  ghost predicate AllEval(spec: DagSpecification, exec: Exec, empty: Partition, ids: seq<string>)
    requires WellFormed(spec) && forall id :: id in ids ==> Declared(spec.nodes, id)
  {
    forall id :: id in ids ==> Eval(spec, exec, empty, id).Ok?
  }

  /** No node has two outgoing edges. */
  ghost predicate NoFanOut(edges: seq<DagEdge>) {
    forall i, j :: 0 <= i < j < |edges| ==> edges[i].src != edges[j].src
  }

  function StagesFor(edges: seq<DagEdge>, nodes: seq<DagNode>): (r: seq<Stage>)
    ensures |r| == |nodes|
    ensures forall i :: 0 <= i < |r| ==> r[i] == Stage(nodes[i].id, nodes[i].operator, Parents(edges, nodes[i].id))
  {
    seq(|nodes|, i requires 0 <= i < |nodes| => Stage(nodes[i].id, nodes[i].operator, Parents(edges, nodes[i].id)))
  }

  // ----- one step keeps the results of finished, unconsumed nodes

  /** `id` is finished and none of its successors is. */
  ghost predicate Live(edges: seq<DagEdge>, done: seq<string>, id: string) {
    id in done && forall e :: e in edges && e.src == id ==> e.dst !in done
  }

  ghost predicate Holds(spec: DagSpecification, exec: Exec, empty: Partition, done: seq<string>, results: Results)
    requires WellFormed(spec)
  {
    && (forall id :: id in results <==> Live(spec.edges, done, id))
    && forall id :: id in results ==> Declared(spec.nodes, id) && Eval(spec, exec, empty, id) == Ok(results[id])
  }

  /** The results of `parents`, one after the other. */
  ghost function Collected(parents: seq<string>, results: Results): seq<Partition>
    requires forall p :: p in parents ==> p in results
  {
    if parents == [] then []
    else Collected(parents[..|parents| - 1], results) + results[parents[|parents| - 1]]
  }

  lemma {:induction false} GatherDistinct(parents: seq<string>, results: Results)
    requires NoDup(parents) && forall p :: p in parents ==> p in results
    ensures Gather(parents, results) == (Collected(parents, results), results - Elems(parents))
  {
    if parents == [] {
      assert results - Elems(parents) == results;
    } else {
      var init, p := parents[..|parents| - 1], parents[|parents| - 1];
      GatherDistinct(init, results);
      assert p in parents && p !in Elems(init);
      assert Elems(parents) == Elems(init) + {p};
      assert results - Elems(init) - {p} == results - Elems(parents);
    }
  }

  lemma {:induction false} EvalParentsCollected(spec: DagSpecification, exec: Exec, empty: Partition, id: string,
                                                parents: seq<string>, results: Results)
    requires WellFormed(spec)
    requires forall p :: p in parents ==> DagEdge(p, id) in spec.edges && p in results
    requires forall p :: p in parents ==> Declared(spec.nodes, p) && Eval(spec, exec, empty, p) == Ok(results[p])
    ensures EvalParents(spec, exec, empty, id, parents) == Ok(Collected(parents, results))
  {
    if parents == [] {
    } else {
      var init, p := parents[..|parents| - 1], parents[|parents| - 1];
      assert p in parents;
      EvalParentsCollected(spec, exec, empty, id, init, results);
    }
  }

  /** Without fan-out an id is listed once among the parents of one node and of no other. */
  lemma {:induction false} ParentsDistinct(edges: seq<DagEdge>, id: string)
    requires NoFanOut(edges)
    ensures NoDup(Parents(edges, id))
  {
    if edges == [] {
    } else {
      var init, e := edges[..|edges| - 1], edges[|edges| - 1];
      ParentsDistinct(init, id);
      forall p | p in Parents(init, id) ensures p != e.src {
        var i :| 0 <= i < |init| && init[i] == DagEdge(p, id);
        assert edges[i].src != edges[|edges| - 1].src;
      }
    }
  }

  lemma SingleSuccessor(edges: seq<DagEdge>, e: DagEdge, f: DagEdge)
    requires NoFanOut(edges) && e in edges && f in edges && e.src == f.src
    ensures e == f
  {
    var i :| 0 <= i < |edges| && edges[i] == e;
    var j :| 0 <= j < |edges| && edges[j] == f;
  }

  /** After a stage exactly its parents stop being live, and it becomes live. */
  lemma LiveAfter(spec: DagSpecification, done: seq<string>, n: string, id: string)
    requires WellFormed(spec) && NoFanOut(spec.edges)
    requires n !in done && PredsIn(spec.edges, n, Elems(done))
    requires forall d, e :: d in done && e in spec.edges && e.src == n ==> e.dst != d
    ensures Live(spec.edges, done + [n], id) <==>
            id == n || (Live(spec.edges, done, id) && id !in Parents(spec.edges, n))
  {
    var after := done + [n];
    if id == n {
      if DagEdge(n, n) in spec.edges {
        EdgeReaches(spec.edges, n, n);
      }
      assert forall e :: e in spec.edges && e.src == n ==> e == DagEdge(n, e.dst) && e.dst != n;
      assert Live(spec.edges, after, n);
    } else if id in Parents(spec.edges, n) {
      assert DagEdge(id, n) in spec.edges;
      assert !Live(spec.edges, after, id);
    } else {
      assert forall e :: e in spec.edges && e.src == id && e.dst == n ==> e == DagEdge(id, n);
    }
  }

  lemma ParentsAreLive(spec: DagSpecification, done: seq<string>, n: string, p: string)
    requires WellFormed(spec) && NoFanOut(spec.edges)
    requires n !in done && PredsIn(spec.edges, n, Elems(done)) && p in Parents(spec.edges, n)
    ensures Live(spec.edges, done, p)
  {
    var f := DagEdge(p, n);
    forall e | e in spec.edges && e.src == p ensures e.dst !in done {
      SingleSuccessor(spec.edges, e, f);
    }
    assert f.src in Elems(done);
  }

  lemma ParentsReady(spec: DagSpecification, exec: Exec, empty: Partition, done: seq<string>, results: Results,
                     n: string)
    requires WellFormed(spec) && NoFanOut(spec.edges)
    requires Holds(spec, exec, empty, done, results)
    requires n !in done && PredsIn(spec.edges, n, Elems(done))
    ensures forall p :: p in Parents(spec.edges, n) ==> p in results
    ensures EvalParents(spec, exec, empty, n, Parents(spec.edges, n)) == Ok(Collected(Parents(spec.edges, n), results))
  {
    var parents := Parents(spec.edges, n);
    forall p | p in parents ensures p in results {
      ParentsAreLive(spec, done, n, p);
    }
    EvalParentsCollected(spec, exec, empty, n, parents, results);
  }

  /** A stage is given exactly the values of its parents, and only they leave the map. */
  lemma StepInputs(spec: DagSpecification, exec: Exec, empty: Partition, done: seq<string>, results: Results,
                   n: DagNode)
    requires WellFormed(spec) && NoFanOut(spec.edges) && n in spec.nodes
    requires Holds(spec, exec, empty, done, results)
    requires n.id !in done && PredsIn(spec.edges, n.id, Elems(done))
    ensures Declared(spec.nodes, n.id)
    ensures Inputs(empty, Parents(spec.edges, n.id), results).1 == results - Elems(Parents(spec.edges, n.id))
    ensures Eval(spec, exec, empty, n.id) ==
            exec(n.id, n.operator, Inputs(empty, Parents(spec.edges, n.id), results).0)
  {
    FindDistinct(spec.nodes, n);
    ParentsReady(spec, exec, empty, done, results, n.id);
    InputsOf(spec.edges, empty, n.id, results);
  }

  lemma InputsOf(edges: seq<DagEdge>, empty: Partition, n: string, results: Results)
    requires NoFanOut(edges)
    requires forall p :: p in Parents(edges, n) ==> p in results
    ensures var parents := Parents(edges, n);
            Inputs(empty, parents, results) ==
            (if parents == [] then [empty] else Collected(parents, results), results - Elems(parents))
  {
    ParentsDistinct(edges, n);
    GatherDistinct(Parents(edges, n), results);
  }

  /** One iteration of the loop evaluates one node. */
  lemma StepEvaluates(spec: DagSpecification, exec: Exec, empty: Partition, done: seq<string>, results: Results,
                      n: DagNode)
    requires WellFormed(spec) && NoFanOut(spec.edges) && n in spec.nodes
    requires Holds(spec, exec, empty, done, results)
    requires n.id !in done && PredsIn(spec.edges, n.id, Elems(done))
    requires forall d, e :: d in done && e in spec.edges && e.src == n.id ==> e.dst != d
    ensures Declared(spec.nodes, n.id)
    ensures var after := Step(exec, empty, results, Stage(n.id, n.operator, Parents(spec.edges, n.id)));
            && (after.Ok? ==> Eval(spec, exec, empty, n.id).Ok? && Holds(spec, exec, empty, done + [n.id], after.value))
            && (after.Err? ==> Eval(spec, exec, empty, n.id) == Err(after.error))
  {
    var parents := Parents(spec.edges, n.id);
    StepInputs(spec, exec, empty, done, results, n);
    var after := Step(exec, empty, results, Stage(n.id, n.operator, parents));
    if after.Ok? {
      forall id ensures id in after.value <==> Live(spec.edges, done + [n.id], id) {
        LiveAfter(spec, done, n.id, id);
      }
    }
  }

  // ----- whole runs

  lemma OrderIsDistinct(spec: DagSpecification, order: seq<DagNode>)
    requires WellFormed(spec) && TopoOrder(spec, order)
    ensures NoDup(Ids(order))
    ensures forall n :: n in order <==> n in spec.nodes
    ensures forall id :: id in Ids(order) <==> Declared(spec.nodes, id)
  {
    forall n ensures n in order <==> n in spec.nodes {
      assert n in multiset(order) <==> n in multiset(spec.nodes);
    }
    NodesNoDup(spec.nodes);
    forall i, j | 0 <= i < j < |order| ensures Ids(order)[i] != Ids(order)[j] {
      if order[i] == order[j] {
        TwiceIn(order, i, j);
        NoDupCount(spec.nodes, order[i]);
      } else {
        FindDistinct(spec.nodes, order[i]);
        FindDistinct(spec.nodes, order[j]);
      }
    }
    forall id ensures id in Ids(order) <==> Declared(spec.nodes, id) {
      if id in Ids(order) {
        var i :| 0 <= i < |order| && Ids(order)[i] == id;
        FindDistinct(spec.nodes, order[i]);
      }
      if Declared(spec.nodes, id) {
        var i :| 0 <= i < |spec.nodes| && Ids(spec.nodes)[i] == id;
        assert spec.nodes[i] in order;
        var k :| 0 <= k < |order| && order[k] == spec.nodes[i];
        assert Ids(order)[k] == id;
      }
    }
  }

  lemma TwiceIn<T>(s: seq<T>, i: nat, j: nat)
    requires i < j < |s| && s[i] == s[j]
    ensures multiset(s)[s[i]] >= 2
  {
    assert s == s[..j] + s[j..];
    assert s[i] in s[..j] && s[j] in s[j..];
  }

  /** What a topological order says about the node at position `k`. */
  lemma PositionFacts(spec: DagSpecification, order: seq<DagNode>, k: nat)
    requires WellFormed(spec) && TopoOrder(spec, order) && k < |order|
    ensures var done := Ids(order[..k]);
            && order[k] in spec.nodes
            && order[k].id !in done
            && PredsIn(spec.edges, order[k].id, Elems(done))
            && forall d, e :: d in done && e in spec.edges && e.src == order[k].id ==> e.dst != d
  {
    OrderIsDistinct(spec, order);
    var ids, done := Ids(order), Ids(order[..k]);
    assert done == ids[..k];
    assert PredsIn(spec.edges, ids[k], Elems(ids[..k]));
    assert order[k] in order;
    forall d, e | d in done && e in spec.edges && e.src == order[k].id ensures e.dst != d {
      var i :| 0 <= i < k && ids[i] == d;
      assert PredsIn(spec.edges, ids[i], Elems(ids[..i]));
      assert ids[k] !in ids[..i];
    }
  }

  /** The loop succeeded exactly when every finished node evaluates, and it holds the live values. */
  ghost predicate Tracks(spec: DagSpecification, exec: Exec, empty: Partition, done: seq<string>,
                         r: Result<Results, string>)
    requires WellFormed(spec)
  {
    && (forall id :: id in done ==> Declared(spec.nodes, id))
    && (r.Ok? <==> AllEval(spec, exec, empty, done))
    && (r.Ok? ==> Holds(spec, exec, empty, done, r.value))
  }

  lemma TracksStep(spec: DagSpecification, exec: Exec, empty: Partition, done: seq<string>, r: Result<Results, string>,
                   n: DagNode)
    requires WellFormed(spec) && NoFanOut(spec.edges) && n in spec.nodes
    requires Tracks(spec, exec, empty, done, r)
    requires n.id !in done && PredsIn(spec.edges, n.id, Elems(done))
    requires forall d, e :: d in done && e in spec.edges && e.src == n.id ==> e.dst != d
    ensures Tracks(spec, exec, empty, done + [n.id], if r.Err? then r
                   else Step(exec, empty, r.value, StageOf(spec.edges, n)))
  {
    FindDistinct(spec.nodes, n);
    var after := done + [n.id];
    assert forall id :: id in after <==> id in done || id == n.id;
    if r.Ok? {
      StepEvaluates(spec, exec, empty, done, r.value, n);
    }
  }

  function StageOf(edges: seq<DagEdge>, n: DagNode): Stage {
    Stage(n.id, n.operator, Parents(edges, n.id))
  }

  /** The state of the loop after `k` nodes. */
  function After(exec: Exec, empty: Partition, edges: seq<DagEdge>, order: seq<DagNode>, k: nat)
    : Result<Results, string>
    requires k <= |order|
  {
    RunStages(exec, empty, StagesFor(edges, order[..k]))
  }

  lemma AfterStep(exec: Exec, empty: Partition, edges: seq<DagEdge>, order: seq<DagNode>, k: nat)
    requires 0 < k <= |order|
    ensures var before := After(exec, empty, edges, order, k - 1);
            After(exec, empty, edges, order, k) ==
            if before.Err? then before else Step(exec, empty, before.value, StageOf(edges, order[k - 1]))
  {
    var stages := StagesFor(edges, order[..k]);
    assert stages[..k - 1] == StagesFor(edges, order[..k - 1]);
  }

  lemma IdsTake(nodes: seq<DagNode>, k: nat)
    requires k < |nodes|
    ensures Ids(nodes[..k + 1]) == Ids(nodes[..k]) + [nodes[k].id]
  {
  }

  /** Up to any position, the loop tracks the meaning of the graph. */
  lemma {:induction false} RunPrefix(spec: DagSpecification, exec: Exec, empty: Partition, order: seq<DagNode>, k: nat)
    requires WellFormed(spec) && NoFanOut(spec.edges) && TopoOrder(spec, order) && k <= |order|
    ensures Tracks(spec, exec, empty, Ids(order[..k]), After(exec, empty, spec.edges, order, k))
  {
    if k == 0 {
    } else {
      RunPrefix(spec, exec, empty, order, k - 1);
      PositionFacts(spec, order, k - 1);
      IdsTake(order, k - 1);
      AfterStep(exec, empty, spec.edges, order, k);
      TracksStep(spec, exec, empty, Ids(order[..k - 1]), After(exec, empty, spec.edges, order, k - 1), order[k - 1]);
    }
  }

  /** The outcome of a run on `order`, in terms of the meaning of the graph. */
  ghost predicate Agrees(spec: DagSpecification, exec: Exec, empty: Partition, order: seq<DagNode>)
    requires WellFormed(spec) && TopoOrder(spec, order) && order != []
  {
    OrderIsDistinct(spec, order);
    var r := Run(exec, empty, StagesFor(spec.edges, order), order[|order| - 1].id);
    assert order[|order| - 1].id == Ids(order)[|order| - 1];
    && (r.Ok? <==> AllEval(spec, exec, empty, Ids(spec.nodes)))
    && (r.Ok? ==> r == Eval(spec, exec, empty, order[|order| - 1].id))
  }

  /** Without fan-out every topological order computes the recursive meaning of its last node. */
  lemma RunAgrees(spec: DagSpecification, exec: Exec, empty: Partition, order: seq<DagNode>)
    requires WellFormed(spec) && NoFanOut(spec.edges) && TopoOrder(spec, order) && order != []
    ensures Agrees(spec, exec, empty, order)
  {
    RunPrefix(spec, exec, empty, order, |order|);
    assert order[..|order|] == order &&
           After(exec, empty, spec.edges, order, |order|) == RunStages(exec, empty, StagesFor(spec.edges, order));
    OrderIsDistinct(spec, order);
    var last := order[|order| - 1].id;
    assert last == Ids(order)[|order| - 1];
    assert Live(spec.edges, Ids(order), last) by {
      forall e | e in spec.edges ensures e.src != last {
        LastHasNoSuccessor(spec, order, e);
      }
    }
    assert AllEval(spec, exec, empty, Ids(order)) <==> AllEval(spec, exec, empty, Ids(spec.nodes));
  }

  lemma LastHasNoSuccessor(spec: DagSpecification, order: seq<DagNode>, e: DagEdge)
    requires WellFormed(spec) && TopoOrder(spec, order) && order != []
    requires e in spec.edges
    ensures e.src != order[|order| - 1].id
  {
    OrderIsDistinct(spec, order);
    var ids := Ids(order);
    assert e.dst in ids;
    var i :| 0 <= i < |ids| && ids[i] == e.dst;
    assert PredsIn(spec.edges, ids[i], Elems(ids[..i]));
    assert e.src in ids[..i];
  }

  // ----- a single sink

  /** `sink` is declared and every other node has an outgoing edge. */
  ghost predicate SingleSink(spec: DagSpecification, sink: string) {
    Declared(spec.nodes, sink) &&
    forall id :: Declared(spec.nodes, id) && id != sink ==> exists e :: e in spec.edges && e.src == id
  }

  lemma LastIsSink(spec: DagSpecification, order: seq<DagNode>, sink: string)
    requires WellFormed(spec) && TopoOrder(spec, order) && SingleSink(spec, sink)
    ensures order != [] && order[|order| - 1].id == sink
  {
    OrderIsDistinct(spec, order);
    assert sink in Ids(order);
    var last := order[|order| - 1].id;
    assert last == Ids(order)[|order| - 1] && last in Ids(order);
    forall e | e in spec.edges ensures e.src != last {
      LastHasNoSuccessor(spec, order, e);
    }
  }

  lemma {:induction false} ParentsEvaluate(spec: DagSpecification, exec: Exec, empty: Partition, id: string,
                                           parents: seq<string>, p: string)
    requires WellFormed(spec) && p in parents
    requires forall q :: q in parents ==> DagEdge(q, id) in spec.edges
    requires EvalParents(spec, exec, empty, id, parents).Ok?
    ensures Declared(spec.nodes, p) && Eval(spec, exec, empty, p).Ok?
  {
    var init, q := parents[..|parents| - 1], parents[|parents| - 1];
    assert Declared(spec.nodes, DagEdge(p, id).src);
    if p != q {
      assert p in init;
      ParentsEvaluate(spec, exec, empty, id, init, p);
    }
  }

  /** If the sink evaluates, so does every node. */
  lemma {:induction false} SinkNeedsAll(spec: DagSpecification, exec: Exec, empty: Partition, order: seq<DagNode>,
                                        sink: string, i: nat)
    requires WellFormed(spec) && TopoOrder(spec, order) && SingleSink(spec, sink)
    requires Eval(spec, exec, empty, sink).Ok?
    requires i < |order|
    ensures Declared(spec.nodes, order[i].id) && Eval(spec, exec, empty, order[i].id).Ok?
    decreases |order| - i
  {
    OrderIsDistinct(spec, order);
    var ids := Ids(order);
    assert ids[i] == order[i].id && ids[i] in ids;
    if order[i].id != sink {
      var e :| e in spec.edges && e.src == order[i].id;
      assert e.dst in ids;
      var j :| 0 <= j < |ids| && ids[j] == e.dst;
      assert PredsIn(spec.edges, ids[j], Elems(ids[..j]));
      assert e.src in ids[..j];
      SinkNeedsAll(spec, exec, empty, order, sink, j);
      assert e == DagEdge(order[i].id, e.dst);
      ParentsEvaluate(spec, exec, empty, e.dst, Parents(spec.edges, e.dst), order[i].id);
    }
  }

  /** The pipeline returns the recursive evaluation of the sink, whatever the order. */
  lemma PipelineMeaning(spec: DagSpecification, exec: Exec, empty: Partition, order: seq<DagNode>, sink: string)
    requires WellFormed(spec) && NoFanOut(spec.edges) && SingleSink(spec, sink)
    requires TopoOrder(spec, order)
    ensures order != []
    ensures var r := Run(exec, empty, StagesFor(spec.edges, order), order[|order| - 1].id);
            && (r.Ok? <==> Eval(spec, exec, empty, sink).Ok?)
            && (r.Ok? ==> r == Eval(spec, exec, empty, sink))
            && (r.Ok? <==> AllEval(spec, exec, empty, Ids(spec.nodes)))
  {
    LastIsSink(spec, order, sink);
    RunAgrees(spec, exec, empty, order);
    if Eval(spec, exec, empty, sink).Ok? {
      OrderIsDistinct(spec, order);
      forall id | id in Ids(spec.nodes) ensures Eval(spec, exec, empty, id).Ok? {
        assert id in Ids(order);
        var i :| 0 <= i < |order| && Ids(order)[i] == id;
        SinkNeedsAll(spec, exec, empty, order, sink, i);
      }
    }
  }

  // ----- fan-out is exactly what breaks the interpreter

  function Arity(edges: seq<DagEdge>, id: string): nat {
    if Parents(edges, id) == [] then 1 else |Parents(edges, id)|
  }

  /** Operators that insist on one partition from each incoming edge. */
  function StrictExec(edges: seq<DagEdge>, empty: Partition): Exec {
    (id, op, ins) => if |ins| == Arity(edges, id) then Ok([empty]) else Err("missing input")
  }

  lemma {:induction false} StrictEval(spec: DagSpecification, empty: Partition, id: string)
    requires WellFormed(spec) && Declared(spec.nodes, id)
    ensures Eval(spec, StrictExec(spec.edges, empty), empty, id) == Ok([empty])
    decreases Ancestors(spec, id), 1, 0
  {
    StrictEvalParents(spec, empty, id, Parents(spec.edges, id));
  }

  lemma {:induction false} StrictEvalParents(spec: DagSpecification, empty: Partition, id: string, parents: seq<string>)
    requires WellFormed(spec)
    requires forall p :: p in parents ==> DagEdge(p, id) in spec.edges
    ensures var r := EvalParents(spec, StrictExec(spec.edges, empty), empty, id, parents);
            r.Ok? && |r.value| == |parents|
    decreases Ancestors(spec, id), 0, |parents|
  {
    if parents == [] {
    } else {
      var p := parents[|parents| - 1];
      AncestorsShrink(spec, p, id);
      assert Declared(spec.nodes, DagEdge(p, id).src);
      StrictEvalParents(spec, empty, id, parents[..|parents| - 1]);
      StrictEval(spec, empty, p);
    }
  }

  /** With one partition per result, gathering as many partitions as parents means distinct, present parents. */
  lemma {:induction false} GatherCount(parents: seq<string>, results: Results)
    requires forall id :: id in results ==> |results[id]| == 1
    ensures |Gather(parents, results).0| <= |parents|
    ensures Gather(parents, results).1 == results - Elems(parents)
    ensures |Gather(parents, results).0| == |parents| ==> NoDup(parents) && forall p :: p in parents ==> p in results
  {
    if parents == [] {
      assert results - Elems(parents) == results;
    } else {
      var init, p := parents[..|parents| - 1], parents[|parents| - 1];
      GatherCount(init, results);
      assert parents == init + [p];
      assert Elems(parents) == Elems(init) + {p};
      assert results - Elems(init) - {p} == results - Elems(parents);
    }
  }

  /** The parents of the node at `i` are distinct and still live when it runs. */
  ghost predicate FedFresh(edges: seq<DagEdge>, order: seq<DagNode>, i: int)
    requires 0 <= i < |order|
  {
    var parents := Parents(edges, order[i].id);
    NoDup(parents) && forall p :: p in parents ==> Live(edges, Ids(order[..i]), p)
  }

  /** Every result is one partition of a live node. */
  ghost predicate OnePerLive(edges: seq<DagEdge>, done: seq<string>, results: Results) {
    forall id :: id in results ==> |results[id]| == 1 && Live(edges, done, id)
  }

  /** A strict run that succeeds has consumed each result once. */
  lemma {:induction false} StrictRun(spec: DagSpecification, empty: Partition, order: seq<DagNode>, k: nat)
    requires WellFormed(spec) && TopoOrder(spec, order) && k <= |order|
    requires After(StrictExec(spec.edges, empty), empty, spec.edges, order, k).Ok?
    ensures OnePerLive(spec.edges, Ids(order[..k]),
                       After(StrictExec(spec.edges, empty), empty, spec.edges, order, k).value)
    ensures forall i :: 0 <= i < k ==> FedFresh(spec.edges, order, i)
  {
    if k == 0 {
    } else {
      var n, done, exec := order[k - 1], Ids(order[..k - 1]), StrictExec(spec.edges, empty);
      AfterStep(exec, empty, spec.edges, order, k);
      StrictRun(spec, empty, order, k - 1);
      assert Ids(order[..k]) == done + [n.id];
      PositionFacts(spec, order, k - 1);
      StrictStep(spec, empty, done, After(exec, empty, spec.edges, order, k - 1).value, n);
      assert FedFresh(spec.edges, order, k - 1);
    }
  }

  lemma StrictStep(spec: DagSpecification, empty: Partition, done: seq<string>, before: Results, n: DagNode)
    requires Acyclic(spec.edges)
    requires OnePerLive(spec.edges, done, before)
    requires forall d, e :: d in done && e in spec.edges && e.src == n.id ==> e.dst != d
    requires Step(StrictExec(spec.edges, empty), empty, before, StageOf(spec.edges, n)).Ok?
    ensures OnePerLive(spec.edges, done + [n.id],
                       Step(StrictExec(spec.edges, empty), empty, before, StageOf(spec.edges, n)).value)
    ensures NoDup(Parents(spec.edges, n.id))
    ensures forall p :: p in Parents(spec.edges, n.id) ==> Live(spec.edges, done, p)
  {
    var parents := Parents(spec.edges, n.id);
    GatherCount(parents, before);
    var after := Step(StrictExec(spec.edges, empty), empty, before, StageOf(spec.edges, n)).value;
    forall id | id in after ensures |after[id]| == 1 && Live(spec.edges, done + [n.id], id) {
      forall e | e in spec.edges && e.src == id ensures e.dst !in done + [n.id] {
        assert e == DagEdge(id, e.dst);
        if id == n.id && e.dst == n.id {
          EdgeReaches(spec.edges, n.id, n.id);
        }
      }
    }
  }

  lemma {:induction false} RepeatedEdge(edges: seq<DagEdge>, a: nat, b: nat)
    requires a < b < |edges| && edges[a] == edges[b]
    ensures multiset(Parents(edges, edges[a].dst))[edges[a].src] >= 2
  {
    var init, e := edges[..|edges| - 1], edges[|edges| - 1];
    if b < |edges| - 1 {
      RepeatedEdge(init, a, b);
    } else {
      assert init[a] == DagEdge(e.src, e.dst);
      assert e.src in Parents(init, e.dst);
    }
  }

  lemma FedFreshMeansNoFanOut(spec: DagSpecification, order: seq<DagNode>)
    requires WellFormed(spec) && TopoOrder(spec, order)
    requires forall i :: 0 <= i < |order| ==> FedFresh(spec.edges, order, i)
    ensures NoFanOut(spec.edges)
  {
    OrderIsDistinct(spec, order);
    var edges, ids := spec.edges, Ids(order);
    forall a, b | 0 <= a < b < |edges| ensures edges[a].src != edges[b].src {
      assert edges[a].dst in ids && edges[b].dst in ids;
      var i :| 0 <= i < |ids| && ids[i] == edges[a].dst;
      var j :| 0 <= j < |ids| && ids[j] == edges[b].dst;
      if i == j {
        if edges[a] == edges[b] {
          RepeatedEdge(edges, a, b);
          assert FedFresh(edges, order, i);
          NoDupCount(Parents(edges, edges[a].dst), edges[a].src);
        }
      } else if i < j {
        ConsumedOnce(edges, order, i, j, edges[a], edges[b]);
      } else {
        ConsumedOnce(edges, order, j, i, edges[b], edges[a]);
      }
    }
  }

  lemma ConsumedOnce(edges: seq<DagEdge>, order: seq<DagNode>, i: nat, j: nat, e: DagEdge, f: DagEdge)
    requires i < j < |order| && FedFresh(edges, order, j)
    requires e in edges && f in edges && order[i].id == e.dst && order[j].id == f.dst
    ensures e.src != f.src
  {
    assert f == DagEdge(f.src, order[j].id);
    assert Live(edges, Ids(order[..j]), f.src);
    assert Ids(order[..j])[i] == e.dst;
  }

  /** The interpreter computes the meaning of the graph for all operators exactly when no node fans out. */
  lemma CorrectIffNoFanOut(spec: DagSpecification, empty: Partition, order: seq<DagNode>)
    requires WellFormed(spec) && TopoOrder(spec, order) && order != []
    ensures (forall exec: Exec :: Agrees(spec, exec, empty, order)) <==> NoFanOut(spec.edges)
  {
    if NoFanOut(spec.edges) {
      forall exec: Exec ensures Agrees(spec, exec, empty, order) {
        RunAgrees(spec, exec, empty, order);
      }
    }
    var strict := StrictExec(spec.edges, empty);
    if Agrees(spec, strict, empty, order) {
      StrictAgreement(spec, empty, order);
    }
  }

  lemma StrictAgreement(spec: DagSpecification, empty: Partition, order: seq<DagNode>)
    requires WellFormed(spec) && TopoOrder(spec, order) && order != []
    requires Agrees(spec, StrictExec(spec.edges, empty), empty, order)
    ensures NoFanOut(spec.edges)
  {
    var strict := StrictExec(spec.edges, empty);
    forall id | id in Ids(spec.nodes) ensures Eval(spec, strict, empty, id).Ok? {
      StrictEval(spec, empty, id);
    }
    assert order[..|order|] == order;
    StrictRun(spec, empty, order, |order|);
    FedFreshMeansNoFanOut(spec, order);
  }
}
