/** Injected shuffles do not change what a task computes, and materialised tasks compute the meaning of the graph. */
module Execution {
  import opened Prelude
  import opened Dag
  import opened Graph
  import opened Ordering
  import opened Planner
  import opened Pipeline
  import opened Values

  /** A shuffle of the empty partition succeeds, as the shuffle operator's does. */
  ghost predicate ShuffleTotal(exec: Exec, empty: Partition) {
    forall id, key, n :: exec(id, ShuffleByKey(key, n), [empty]).Ok?
  }

  /** The same outcome, up to results stored under hidden ids. */
  ghost predicate Same(hidden: set<string>, a: Result<Results, string>, b: Result<Results, string>) {
    if a.Ok? && b.Ok? then
      forall id :: id !in hidden ==>
        (id in a.value <==> id in b.value) && (id in a.value && id in b.value ==> a.value[id] == b.value[id])
    else a == b
  }

  ghost predicate Hidden(hidden: set<string>, edges: seq<DagEdge>, nodes: seq<DagNode>) {
    && InjectedIds(nodes) <= hidden
    && (forall id :: id in Ids(nodes) ==> id !in hidden)
    && forall e :: e in edges ==> e.src !in hidden && e.dst !in hidden
  }

  lemma {:induction false} GatherSame(hidden: set<string>, parents: seq<string>, a: Results, b: Results)
    requires Same(hidden, Ok(a), Ok(b)) && forall p :: p in parents ==> p !in hidden
    ensures Gather(parents, a).0 == Gather(parents, b).0
    ensures Same(hidden, Ok(Gather(parents, a).1), Ok(Gather(parents, b).1))
  {
    if parents == [] {
    } else {
      GatherSame(hidden, parents[..|parents| - 1], a, b);
      assert parents[|parents| - 1] in parents;
    }
  }

  lemma StepSame(exec: Exec, empty: Partition, hidden: set<string>, a: Results, b: Results, st: Stage)
    requires Same(hidden, Ok(a), Ok(b)) && forall p :: p in st.parents ==> p !in hidden
    ensures Same(hidden, Step(exec, empty, a, st), Step(exec, empty, b, st))
  {
    GatherSame(hidden, st.parents, a, b);
  }

  /** Running one more node. */
  lemma RunAppend(exec: Exec, empty: Partition, edges: seq<DagEdge>, nodes: seq<DagNode>, n: DagNode)
    ensures var before := RunStages(exec, empty, StagesFor(edges, nodes));
            RunStages(exec, empty, StagesFor(edges, nodes + [n])) ==
            if before.Err? then before else Step(exec, empty, before.value, StageOf(edges, n))
  {
    var order := nodes + [n];
    AfterStep(exec, empty, edges, order, |order|);
    assert order[..|order|] == order && order[..|order| - 1] == nodes;
  }

  lemma {:induction false} NoParents(edges: seq<DagEdge>, id: string)
    requires forall e :: e in edges ==> e.dst != id
    ensures Parents(edges, id) == []
  {
    if edges == [] {
    } else {
      var init, e := edges[..|edges| - 1], edges[|edges| - 1];
      assert edges == init + [e];
      NoParents(init, id);
    }
  }

  /** A node that one edge enters has that edge's source as its only parent. */
  lemma {:induction false} SingleParent(edges: seq<DagEdge>, k: nat, id: string)
    requires k < |edges| && edges[k].dst == id
    requires forall j :: 0 <= j < |edges| && j != k ==> edges[j].dst != id
    ensures Parents(edges, id) == [edges[k].src]
  {
    var last := |edges| - 1;
    if k == last {
      NoParents(edges[..last], id);
    } else {
      SingleParent(edges[..last], k, id);
    }
  }

  /** A node that two edges enter has their sources as parents. */
  lemma {:induction false} DoubleParent(edges: seq<DagEdge>, a: nat, b: nat, id: string)
    requires a < b < |edges| && edges[a].dst == id && edges[b].dst == id
    requires forall k :: 0 <= k < |edges| && k != a && k != b ==> edges[k].dst != id
    ensures Parents(edges, id) == [edges[a].src, edges[b].src]
  {
    var last := |edges| - 1;
    if b == last {
      SingleParent(edges[..last], a, id);
    } else {
      DoubleParent(edges[..last], a, b, id);
    }
  }

  lemma NoParent(spec: DagSpecification, exec: Exec, empty: Partition, id: string, n: DagNode)
    requires WellFormed(spec) && Declared(spec.nodes, id) && Parents(spec.edges, id) == [] &&
             Find(spec.nodes, id) == Some(n)
    ensures Eval(spec, exec, empty, id) == exec(id, n.operator, [empty])
  {
  }

  /** A node with one parent is its operator applied to the parent's value. */
  lemma OneParent(spec: DagSpecification, exec: Exec, empty: Partition, id: string, p: string, n: DagNode)
    requires WellFormed(spec) && Declared(spec.nodes, id) && Declared(spec.nodes, p) && Parents(spec.edges, id) == [p]
    requires Find(spec.nodes, id) == Some(n)
    ensures var before := Eval(spec, exec, empty, p);
            Eval(spec, exec, empty, id) == if before.Err? then before else exec(id, n.operator, before.value)
  {
    var parents := Parents(spec.edges, id);
    assert parents[..0] == [] && p in parents;
    assert EvalParents(spec, exec, empty, id, parents[..0]) == Ok([]);
    var before := Eval(spec, exec, empty, p);
    if before.Ok? {
      assert [] + before.value == before.value;
    }
  }

  /** An operator on the partitions of two parents. */
  function OnBoth(exec: Exec, n: DagNode, a: Result<seq<Partition>, string>, b: Result<seq<Partition>, string>)
    : Result<seq<Partition>, string>
  {
    if a.Err? then a else if b.Err? then b else exec(n.id, n.operator, a.value + b.value)
  }

  /** A node with two parents is its operator applied to the partitions of both. */
  lemma TwoParents(spec: DagSpecification, exec: Exec, empty: Partition, id: string, p: string, q: string, n: DagNode)
    requires WellFormed(spec) && Declared(spec.nodes, id) && Declared(spec.nodes, p) && Declared(spec.nodes, q)
    requires Parents(spec.edges, id) == [p, q] && Find(spec.nodes, id) == Some(n)
    ensures Eval(spec, exec, empty, id) == OnBoth(exec, n, Eval(spec, exec, empty, p), Eval(spec, exec, empty, q))
  {
    var parents := Parents(spec.edges, id);
    assert parents[..1] == [p] && [p][..0] == [] && p in parents && q in parents;
    assert EvalParents(spec, exec, empty, id, [p][..0]) == Ok([]);
    var a := Eval(spec, exec, empty, p);
    if a.Ok? {
      assert [] + a.value == a.value;
      assert EvalParents(spec, exec, empty, id, [p]) == Ok(a.value);
    } else {
      assert EvalParents(spec, exec, empty, id, [p]) == Err(a.error);
    }
  }

  /** An injected shuffle only adds a result under its own id. */
  lemma ShuffleStageSame(exec: Exec, empty: Partition, hidden: set<string>, edges: seq<DagEdge>,
                         r: Result<Results, string>, out: seq<DagNode>, s: DagNode)
    requires ShuffleTotal(exec, empty) && s.operator.ShuffleByKey? && s.id in hidden
    requires forall e :: e in edges ==> e.dst !in hidden
    requires Same(hidden, r, RunStages(exec, empty, StagesFor(edges, out)))
    ensures Same(hidden, r, RunStages(exec, empty, StagesFor(edges, out + [s])))
  {
    RunAppend(exec, empty, edges, out, s);
    NoParents(edges, s.id);
    assert exec(s.id, ShuffleByKey(s.operator.key, s.operator.totalPartitions), [empty]).Ok?;
  }

  lemma NodeStageSame(exec: Exec, empty: Partition, hidden: set<string>, edges: seq<DagEdge>,
                      init: seq<DagNode>, out: seq<DagNode>, n: DagNode)
    requires forall e :: e in edges ==> e.src !in hidden
    requires Same(hidden, RunStages(exec, empty, StagesFor(edges, init)), RunStages(exec, empty, StagesFor(edges, out)))
    ensures Same(hidden, RunStages(exec, empty, StagesFor(edges, init + [n])),
                 RunStages(exec, empty, StagesFor(edges, out + [n])))
  {
    RunAppend(exec, empty, edges, init, n);
    RunAppend(exec, empty, edges, out, n);
    var a, b := RunStages(exec, empty, StagesFor(edges, init)), RunStages(exec, empty, StagesFor(edges, out));
    if a.Ok? {
      forall p | p in Parents(edges, n.id) ensures p !in hidden {
        assert DagEdge(p, n.id) in edges && DagEdge(p, n.id).src == p;
      }
      StepSame(exec, empty, hidden, a.value, b.value, StageOf(edges, n));
    }
  }

  lemma {:induction false} InjectedRun(exec: Exec, empty: Partition, hidden: set<string>, edges: seq<DagEdge>,
                                       nodes: seq<DagNode>, partitions: nat)
    requires ShuffleTotal(exec, empty) && Hidden(hidden, edges, nodes)
    ensures Same(hidden, RunStages(exec, empty, StagesFor(edges, nodes)),
                 RunStages(exec, empty, StagesFor(edges, Inject(nodes, partitions))))
  {
    if nodes == [] {
    } else {
      var init, n := nodes[..|nodes| - 1], nodes[|nodes| - 1];
      assert nodes == init + [n] && n in nodes;
      assert Hidden(hidden, edges, init) by {
        assert forall m :: m in init ==> m in nodes;
        assert Ids(nodes) == Ids(init) + [n.id];
      }
      InjectedRun(exec, empty, hidden, edges, init, partitions);
      var out := Inject(init, partitions);
      if n.operator.ReduceByKey? && !EndsInShuffle(out, n.operator.key) {
        var s := DagNode(ShuffleId(n.id), ShuffleByKey(n.operator.key, partitions));
        assert s.id in InjectedIds(nodes);
        ShuffleStageSame(exec, empty, hidden, edges, RunStages(exec, empty, StagesFor(edges, init)), out, s);
        NodeStageSame(exec, empty, hidden, edges, init, out + [s], n);
        assert out + [s] + [n] == out + [s, n];
      } else {
        NodeStageSame(exec, empty, hidden, edges, init, out, n);
      }
    }
  }

  /** The final output is the same with and without injection. */
  lemma InjectionPreservesMeaning(exec: Exec, empty: Partition, edges: seq<DagEdge>, nodes: seq<DagNode>,
                                  partitions: nat)
    requires nodes != [] && ShuffleTotal(exec, empty) && Hidden(InjectedIds(nodes), edges, nodes)
    ensures Inject(nodes, partitions) != []
    ensures var plan := Inject(nodes, partitions);
            Run(exec, empty, StagesFor(edges, plan), plan[|plan| - 1].id) ==
            Run(exec, empty, StagesFor(edges, nodes), nodes[|nodes| - 1].id)
  {
    InjectedRun(exec, empty, InjectedIds(nodes), edges, nodes, partitions);
    InjectNonEmpty(nodes, partitions);
    assert Ids(nodes)[|nodes| - 1] == nodes[|nodes| - 1].id;
  }

  // ----- materialised tasks

  /** Reading a materialised task gives the planned stages back. */
  lemma TaskStages(spec: DagSpecification, job: Uuid, plan: seq<DagNode>, p: nat)
    requires plan != [] && ReadSource(spec.nodes).Some?
    requires forall e :: e in spec.edges ==> !HasArrow(e.src)
    ensures var task := TaskFor(spec, job, plan, p);
            StagesOf(task) == StagesFor(spec.edges, plan) && FinalKey(task) == plan[|plan| - 1].id
  {
    var task, stages := TaskFor(spec, job, plan, p), StagesFor(spec.edges, plan);
    TaskShape(spec, job, plan, p);
    forall i | 0 <= i < |plan| ensures StagesOf(task)[i] == stages[i] {
      TaskStage(spec, job, plan, p, i);
    }
  }

  lemma TaskShape(spec: DagSpecification, job: Uuid, plan: seq<DagNode>, p: nat)
    requires plan != [] && ReadSource(spec.nodes).Some?
    ensures var task := TaskFor(spec, job, plan, p);
            |OperatorDefs(task)| == |plan| && FinalKey(task) == plan[|plan| - 1].id
  {
  }

  lemma TaskStage(spec: DagSpecification, job: Uuid, plan: seq<DagNode>, p: nat, i: nat)
    requires i < |plan| && ReadSource(spec.nodes).Some?
    requires forall e :: e in spec.edges ==> !HasArrow(e.src)
    ensures StageAt(TaskFor(spec, job, plan, p), i) == StageOf(spec.edges, plan[i])
  {
    LabelsRoundTrip(spec.edges, plan[i].id);
    assert OperatorIds(TaskFor(spec, job, plan, p)) == Ids(plan);
  }

  lemma PossibleOrderIsTopological(spec: DagSpecification, order: seq<DagNode>)
    requires WellFormed(spec) && PossibleOrder(spec, order)
    ensures TopoOrder(spec, order)
  {
    if spec.edges != [] {
      PossibleIsPlanned(spec, order);
      AcyclicIsTopological(spec, order);
    }
  }

  /** Node ids, edge sources and injected ids do not interfere. */
  ghost predicate CleanIds(spec: DagSpecification) {
    && (forall e :: e in spec.edges ==> !HasArrow(e.src))
    && Hidden(InjectedIds(spec.nodes), spec.edges, spec.nodes)
  }

  /**
   Every task the master materialises computes the recursive meaning of the job's sink; partitions are their record
   lists.
   */
  lemma TaskMeaning(spec: DagSpecification, exec: Exec, empty: Partition, job: Uuid, tasks: seq<Task>, p: nat,
                    sink: string)
    requires WellFormed(spec) && NoFanOut(spec.edges) && SingleSink(spec, sink) && CleanIds(spec)
    requires ShuffleTotal(exec, empty)
    requires PossibleTasks(spec, job, tasks) && p < |tasks|
    ensures var r := Run(exec, empty, StagesOf(tasks[p]), FinalKey(tasks[p]));
            && (r.Ok? <==> Eval(spec, exec, empty, sink).Ok?)
            && (r.Ok? ==> r == Eval(spec, exec, empty, sink))
  {
    var order :| TasksFrom(spec, job, order, tasks);
    var plan := Inject(order, spec.partitions);
    assert tasks[p] == TaskFor(spec, job, plan, p);
    PossibleOrderIsTopological(spec, order);
    PipelineMeaning(spec, exec, empty, order, sink);
    OrderIsHidden(spec, order);
    InjectionPreservesMeaning(exec, empty, spec.edges, order, spec.partitions);
    TaskStages(spec, job, plan, p);
  }

  lemma OrderIsHidden(spec: DagSpecification, order: seq<DagNode>)
    requires WellFormed(spec) && TopoOrder(spec, order) && Hidden(InjectedIds(spec.nodes), spec.edges, spec.nodes)
    ensures Hidden(InjectedIds(order), spec.edges, order)
  {
    OrderIsDistinct(spec, order);
    assert InjectedIds(order) == InjectedIds(spec.nodes);
  }
}
