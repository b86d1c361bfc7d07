/** Chains of operators: what they mean, and that they run untangled at every memory limit. */
module Chains {
  import opened Prelude
  import opened Dag
  import opened Ordering
  import opened Planner
  import opened Pipeline
  import opened Execution
  import opened Values
  import opened Transforms
  import opened Operators
  import S = Shuffle
  import Res = Residency
  import C = Completion

  /** A chain of nodes, each fed by the one before it. */
  datatype ChainJob = ChainJob(ids: seq<string>, ops: seq<OperatorType>)

  /** A read first, distinct ids that edge labels can carry, and no id that injection makes up. */
  ghost predicate ValidChain(c: ChainJob) {
    && |c.ids| == |c.ops| > 0 && c.ops[0].Read?
    && NoDup(c.ids)
    && (forall i :: 0 <= i < |c.ids| ==> !HasArrow(c.ids[i]))
    && forall i, j :: 0 <= i < |c.ids| && 0 <= j < |c.ids| && c.ops[j].ReduceByKey? ==> c.ids[i] != ShuffleId(c.ids[j])
  }

  function ChainNodes(c: ChainJob): (r: seq<DagNode>)
    requires |c.ids| == |c.ops|
    ensures |r| == |c.ids| && forall i :: 0 <= i < |r| ==> r[i] == DagNode(c.ids[i], c.ops[i])
  {
    seq(|c.ids|, i requires 0 <= i < |c.ids| => DagNode(c.ids[i], c.ops[i]))
  }

  function ChainEdges(ids: seq<string>): (r: seq<DagEdge>)
    requires ids != []
    ensures |r| == |ids| - 1 && forall i :: 0 <= i < |r| ==> r[i] == DagEdge(ids[i], ids[i + 1])
  {
    seq(|ids| - 1, i requires 0 <= i < |ids| - 1 => DagEdge(ids[i], ids[i + 1]))
  }

  function ChainSpec(c: ChainJob, partitions: nat): DagSpecification
    requires |c.ids| == |c.ops| > 0
  {
    DagSpecification(ChainNodes(c), ChainEdges(c.ids), partitions)
  }

  function LastId(c: ChainJob): string
    requires c.ids != []
  {
    c.ids[|c.ids| - 1]
  }

  lemma ChainForward(ids: seq<string>)
    requires ids != [] && NoDup(ids)
    ensures Forward(ChainEdges(ids), ids)
  {
    var edges := ChainEdges(ids);
    forall i | 0 <= i < |ids| ensures PredsIn(edges, ids[i], Elems(ids[..i])) {
      forall e | e in edges && e.dst == ids[i] ensures e.src in Elems(ids[..i]) {
        var k :| 0 <= k < |edges| && edges[k] == e;
        assert k + 1 == i;
        assert ids[..i][k] == e.src;
      }
    }
  }

  lemma ChainEnds(c: ChainJob, partitions: nat)
    requires ValidChain(c)
    ensures Ids(ChainSpec(c, partitions).nodes) == c.ids
    ensures forall e :: e in ChainEdges(c.ids) ==> e.src in c.ids && e.dst in c.ids && !HasArrow(e.src)
  {
    var edges := ChainEdges(c.ids);
    forall e | e in edges ensures e.src in c.ids && e.dst in c.ids && !HasArrow(e.src) {
      var k :| 0 <= k < |edges| && edges[k] == e;
    }
  }

  lemma ChainIsWellFormed(c: ChainJob, partitions: nat)
    requires ValidChain(c)
    ensures WellFormed(ChainSpec(c, partitions))
  {
    ChainEnds(c, partitions);
    ChainForward(c.ids);
    ForwardIsAcyclic(ChainEdges(c.ids), c.ids);
  }

  lemma ChainHasNoFanOut(c: ChainJob)
    requires ValidChain(c)
    ensures NoFanOut(ChainEdges(c.ids))
  {
  }

  lemma ChainIsClean(c: ChainJob, partitions: nat)
    requires ValidChain(c)
    ensures CleanIds(ChainSpec(c, partitions))
  {
    ChainEnds(c, partitions);
    var nodes := ChainSpec(c, partitions).nodes;
    forall id | id in c.ids ensures id !in InjectedIds(nodes) {
      var i :| 0 <= i < |c.ids| && c.ids[i] == id;
      forall n | n in nodes && n.operator.ReduceByKey? ensures id != ShuffleId(n.id) {
        var j :| 0 <= j < |nodes| && nodes[j] == n;
        assert c.ids[i] != ShuffleId(c.ids[j]);
      }
    }
  }

  lemma ChainSink(c: ChainJob, partitions: nat)
    requires ValidChain(c)
    ensures SingleSink(ChainSpec(c, partitions), LastId(c))
  {
    var spec, n := ChainSpec(c, partitions), |c.ids|;
    ChainEnds(c, partitions);
    forall id | Declared(spec.nodes, id) && id != LastId(c) ensures exists e :: e in spec.edges && e.src == id {
      var k :| 0 <= k < n && c.ids[k] == id;
      assert spec.edges[k] in spec.edges && spec.edges[k].src == id;
    }
  }

  lemma ChainQualifies(c: ChainJob, partitions: nat)
    requires ValidChain(c)
    ensures var spec := ChainSpec(c, partitions);
            WellFormed(spec) && NoFanOut(spec.edges) && SingleSink(spec, LastId(c)) && CleanIds(spec)
  {
    ChainIsWellFormed(c, partitions);
    ChainHasNoFanOut(c);
    ChainSink(c, partitions);
    ChainIsClean(c, partitions);
  }

  // ----- what the nodes of a chain mean

  /** The nodes of the chain are declared in `spec`, and each is fed by the one before it alone. */
  ghost predicate HasChain(spec: DagSpecification, c: ChainJob) {
    |c.ids| == |c.ops| > 0 && forall i :: 0 <= i < |c.ids| ==> ChainNodeAt(spec, c, i)
  }

  ghost predicate ChainNodeAt(spec: DagSpecification, c: ChainJob, i: int)
    requires 0 <= i < |c.ids| == |c.ops|
  {
    && Declared(spec.nodes, c.ids[i])
    && Find(spec.nodes, c.ids[i]) == Some(DagNode(c.ids[i], c.ops[i]))
    && Parents(spec.edges, c.ids[i]) == if i == 0 then [] else [c.ids[i - 1]]
  }

  lemma ChainIsLinked(c: ChainJob, n: nat)
    requires ValidChain(c)
    ensures HasChain(ChainSpec(c, n), c)
  {
    var nodes := ChainSpec(c, n).nodes;
    ChainEnds(c, n);
    forall i | 0 <= i < |c.ids| ensures ChainNodeAt(ChainSpec(c, n), c, i) {
      FindDistinct(nodes, nodes[i]);
      ChainParent(c, i);
    }
  }

  lemma ChainParent(c: ChainJob, i: nat)
    requires ValidChain(c) && i < |c.ids|
    ensures Parents(ChainEdges(c.ids), c.ids[i]) == if i == 0 then [] else [c.ids[i - 1]]
  {
    if i == 0 {
      NoParents(ChainEdges(c.ids), c.ids[0]);
    } else {
      SingleParent(ChainEdges(c.ids), i - 1, c.ids[i]);
    }
  }

  /** The operators of the chain applied one after the other, up to node `i`. */
  function ChainValue(c: ChainJob, ctx: Context, empty: Partition, i: nat): Result<seq<Partition>, string>
    requires |c.ids| == |c.ops| && i < |c.ops|
  {
    if i == 0 then Execute(ctx, c.ids[0], c.ops[0], [empty])
    else
      match ChainValue(c, ctx, empty, i - 1)
      case Err(e) => Err(e)
      case Ok(parts) => Execute(ctx, c.ids[i], c.ops[i], parts)
  }

  /** Node `i` means the first operators of the chain. */
  ghost predicate Means(spec: DagSpecification, c: ChainJob, ctx: Context, empty: Partition, i: nat)
    requires WellFormed(spec) && i < |c.ids| == |c.ops|
  {
    Declared(spec.nodes, c.ids[i]) && Eval(spec, ExecOf(ctx), empty, c.ids[i]) == ChainValue(c, ctx, empty, i)
  }

  lemma FirstMeans(spec: DagSpecification, c: ChainJob, ctx: Context, empty: Partition)
    requires WellFormed(spec) && HasChain(spec, c)
    ensures Means(spec, c, ctx, empty, 0)
  {
    assert ChainNodeAt(spec, c, 0);
    NoParent(spec, ExecOf(ctx), empty, c.ids[0], DagNode(c.ids[0], c.ops[0]));
  }

  /** One more node of the chain. */
  lemma NextMeans(spec: DagSpecification, c: ChainJob, ctx: Context, empty: Partition, i: nat)
    requires WellFormed(spec) && HasChain(spec, c) && 0 < i < |c.ids| && Means(spec, c, ctx, empty, i - 1)
    ensures Means(spec, c, ctx, empty, i)
  {
    assert ChainNodeAt(spec, c, i);
    OneParent(spec, ExecOf(ctx), empty, c.ids[i], c.ids[i - 1], DagNode(c.ids[i], c.ops[i]));
  }

  /** In a graph that contains a chain, the value of each of its nodes is the operators applied in turn. */
  lemma {:induction false} ChainEval(spec: DagSpecification, c: ChainJob, ctx: Context, empty: Partition, i: nat)
    requires WellFormed(spec) && HasChain(spec, c) && i < |c.ids|
    ensures Means(spec, c, ctx, empty, i)
    decreases i
  {
    if i == 0 {
      FirstMeans(spec, c, ctx, empty);
    } else {
      ChainEval(spec, c, ctx, empty, i - 1);
      NextMeans(spec, c, ctx, empty, i);
    }
  }

  /** Every chain can be materialised: one task per partition. */
  lemma ChainTasksExist(c: ChainJob, job: Uuid, n: nat) returns (tasks: seq<Task>)
    requires ValidChain(c)
    ensures PossibleTasks(ChainSpec(c, n), job, tasks) && |tasks| == n
  {
    assert ChainSpec(c, n).nodes[0].operator.Read?;
    tasks := TasksExist(ChainSpec(c, n), job);
  }

  // ----- the planned list as a graph of its own

  /** The graph with the injected shuffles as nodes without edges. */
  function PlanSpec(spec: DagSpecification, order: seq<DagNode>): DagSpecification {
    spec.(nodes := Inject(order, spec.partitions))
  }

  lemma {:induction false} InjectKeeps(nodes: seq<DagNode>, partitions: nat, n: DagNode)
    requires n in nodes
    ensures n in Inject(nodes, partitions)
  {
    var init, last := nodes[..|nodes| - 1], nodes[|nodes| - 1];
    assert nodes == init + [last];
    if n in init {
      InjectKeeps(init, partitions, n);
    }
  }

  lemma PlanIsWellFormed(spec: DagSpecification, order: seq<DagNode>)
    requires WellFormed(spec) && TopoOrder(spec, order) && CleanIds(spec)
    ensures WellFormed(PlanSpec(spec, order)) && TopoOrder(PlanSpec(spec, order), Inject(order, spec.partitions))
  {
    OrderIsDistinct(spec, order);
    OrderIsHidden(spec, order);
    Res.PlanIsDistinct(spec, order);
    C.InjectForward(spec.edges, order, spec.partitions);
  }

  lemma PlanIsLinked(spec: DagSpecification, order: seq<DagNode>, c: ChainJob)
    requires WellFormed(spec) && TopoOrder(spec, order) && CleanIds(spec) && HasChain(spec, c)
    ensures HasChain(PlanSpec(spec, order), c)
  {
    var plan := Inject(order, spec.partitions);
    OrderIsDistinct(spec, order);
    Res.PlanIsDistinct(spec, order);
    forall i | 0 <= i < |c.ids| ensures ChainNodeAt(PlanSpec(spec, order), c, i) {
      var n := DagNode(c.ids[i], c.ops[i]);
      assert ChainNodeAt(spec, c, i);
      InjectKeeps(order, spec.partitions, n);
      FindDistinct(plan, n);
    }
  }

  // ----- one partition at a time

  /** No read but the first, and no shuffle of the client's. */
  ghost predicate Slim(c: ChainJob) {
    forall i :: 0 <= i < |c.ops| ==> !c.ops[i].ShuffleByKey? && (c.ops[i].Read? ==> i == 0)
  }

  lemma ApplyToOne(tx: TextFns, op: OperatorType, parts: seq<Partition>)
    requires RecordWise(op) && |parts| <= 1 && ApplyAll(tx, op, parts).Ok?
    ensures |ApplyAll(tx, op, parts).value| <= 1
  {
    if |parts| == 1 {
      assert parts[..0] == [];
    }
  }

  /** All operators but the shuffle turn at most one partition into at most one. */
  lemma OneMakesOne(ctx: Context, id: string, op: OperatorType, parts: seq<Partition>)
    requires !op.ShuffleByKey? && |parts| <= 1 && Execute(ctx, id, op, parts).Ok?
    ensures |Execute(ctx, id, op, parts).value| <= 1
  {
    if RecordWise(op) {
      ApplyToOne(ctx.tx, op, parts);
    }
  }

  lemma {:induction false} SlimValue(c: ChainJob, ctx: Context, empty: Partition, i: nat)
    requires |c.ids| == |c.ops| && Slim(c) && i < |c.ops| && ChainValue(c, ctx, empty, i).Ok?
    ensures |ChainValue(c, ctx, empty, i).value| <= 1
  {
    if i == 0 {
      OneMakesOne(ctx, c.ids[0], c.ops[0], [empty]);
    } else {
      SlimValue(c, ctx, empty, i - 1);
      OneMakesOne(ctx, c.ids[i], c.ops[i], ChainValue(c, ctx, empty, i - 1).value);
    }
  }

  /** Shuffling nothing leaves nothing behind, at any limit. */
  lemma EngineEmptyShufflesFit(e: Res.Settings, ctx: Context, empty: Partition)
    requires empty.records == []
    ensures C.EmptyShufflesFit(e, ExecOf(ctx), empty) && Res.Fits(e, empty)
  {
    assert [empty][..0] == [];
    assert S.Records([empty]) == S.Records([]) + [];
    forall id, key, n ensures Res.AllFitIn(e, ExecOf(ctx)(id, ShuffleByKey(key, n), [empty]).value) {
      var made := S.Shuffled(ctx.rt, key, AtLeastOne(n), []);
      assert ExecOf(ctx)(id, ShuffleByKey(key, n), [empty]) == Ok(made);
      assert forall b :: 0 <= b < |made| ==> made[b].records == [];
    }
  }

  // ----- one node at a time

  /** What is done contains the predecessors of what is done. */
  ghost predicate Closed(edges: seq<DagEdge>, done: seq<string>) {
    forall d :: d in done ==> PredsIn(edges, d, Elems(done))
  }

  lemma ForwardIsClosed(edges: seq<DagEdge>, ids: seq<string>, k: nat)
    requires Forward(edges, ids) && k <= |ids|
    ensures Closed(edges, ids[..k])
  {
    forall d | d in ids[..k] ensures PredsIn(edges, d, Elems(ids[..k])) {
      var i :| 0 <= i < k && ids[i] == d;
      assert PredsIn(edges, ids[i], Elems(ids[..i]));
      assert forall x :: x in ids[..i] ==> x in ids[..k];
    }
  }

  lemma {:induction false} EarlierIsDone(spec: DagSpecification, c: ChainJob, done: seq<string>, a: nat, b: nat)
    requires HasChain(spec, c) && Closed(spec.edges, done) && a <= b < |c.ids| && c.ids[b] in done
    ensures c.ids[a] in done
  {
    if a < b {
      assert ChainNodeAt(spec, c, b);
      assert c.ids[b - 1] in Parents(spec.edges, c.ids[b]) && DagEdge(c.ids[b - 1], c.ids[b]) in spec.edges;
      assert DagEdge(c.ids[b - 1], c.ids[b]).src in Elems(done);
      EarlierIsDone(spec, c, done, a, b - 1);
    }
  }

  /** At most one node of a chain is finished and not yet taken. */
  lemma OneIsLive(spec: DagSpecification, c: ChainJob, done: seq<string>, a: nat, b: nat)
    requires HasChain(spec, c) && Closed(spec.edges, done) && a < b < |c.ids|
    requires Live(spec.edges, done, c.ids[b])
    ensures !Live(spec.edges, done, c.ids[a])
  {
    EarlierIsDone(spec, c, done, a + 1, b);
    assert ChainNodeAt(spec, c, a + 1);
    assert c.ids[a] in Parents(spec.edges, c.ids[a + 1]) && DagEdge(c.ids[a], c.ids[a + 1]) in spec.edges;
  }

  lemma LiveIsOne(spec: DagSpecification, c: ChainJob, done: seq<string>, a: string, b: string)
    requires HasChain(spec, c) && Closed(spec.edges, done) && a in c.ids && b in c.ids
    requires Live(spec.edges, done, a) && Live(spec.edges, done, b)
    ensures a == b
  {
    var x :| 0 <= x < |c.ids| && c.ids[x] == a;
    var y :| 0 <= y < |c.ids| && c.ids[y] == b;
    if x < y {
      OneIsLive(spec, c, done, x, y);
    } else if y < x {
      OneIsLive(spec, c, done, y, x);
    }
  }

  // ----- chains are untangled

  /** A chain without client shuffles, and an order of its nodes. */
  ghost predicate ChainPlan(c: ChainJob, n: nat, empty: Partition, order: seq<DagNode>) {
    ValidChain(c) && Slim(c) && empty.records == [] && TopoOrder(ChainSpec(c, n), order)
  }

  lemma PlanQualifies(c: ChainJob, n: nat, empty: Partition, order: seq<DagNode>)
    requires ChainPlan(c, n, empty, order)
    ensures WellFormed(ChainSpec(c, n)) && CleanIds(ChainSpec(c, n)) && NoFanOut(ChainEdges(c.ids))
    ensures var spec := PlanSpec(ChainSpec(c, n), order);
            WellFormed(spec) && TopoOrder(spec, spec.nodes) && HasChain(spec, c)
  {
    ChainQualifies(c, n);
    PlanIsWellFormed(ChainSpec(c, n), order);
    ChainIsLinked(c, n);
    PlanIsLinked(ChainSpec(c, n), order, c);
  }

  /** A planned node is one of the chain's, or an injected shuffle that no edge enters. */
  lemma PlannedNode(c: ChainJob, n: nat, empty: Partition, order: seq<DagNode>, m: DagNode)
    requires ChainPlan(c, n, empty, order) && m in Inject(order, n)
    ensures (exists i :: 0 <= i < |c.ids| && m == DagNode(c.ids[i], c.ops[i])) ||
            (m.operator.ShuffleByKey? && Parents(ChainEdges(c.ids), m.id) == [])
  {
    var spec := ChainSpec(c, n);
    ChainQualifies(c, n);
    OrderIsDistinct(spec, order);
    OrderIsHidden(spec, order);
    C.InjectMembers(order, n, m);
    if m in order {
      var i :| 0 <= i < |spec.nodes| && spec.nodes[i] == m;
      assert m == DagNode(c.ids[i], c.ops[i]);
    } else {
      NoParents(spec.edges, m.id);
    }
  }

  /** What the loop holds after `k` planned nodes. */
  lemma HeldAfter(c: ChainJob, n: nat, ctx: Context, empty: Partition, order: seq<DagNode>, k: nat)
    requires ChainPlan(c, n, empty, order) && k <= |Inject(order, n)|
    requires WellFormed(PlanSpec(ChainSpec(c, n), order))
    ensures var plan := Inject(order, n);
            var r := RunStages(ExecOf(ctx), empty, StagesFor(ChainEdges(c.ids), plan)[..k]);
            r.Ok? ==> Holds(PlanSpec(ChainSpec(c, n), order), ExecOf(ctx), empty, Ids(plan[..k]), r.value)
  {
    var plan := Inject(order, n);
    PlanQualifies(c, n, empty, order);
    RunPrefix(PlanSpec(ChainSpec(c, n), order), ExecOf(ctx), empty, plan, k);
    assert StagesFor(ChainEdges(c.ids), plan)[..k] == StagesFor(ChainEdges(c.ids), plan[..k]);
  }

  /** The values of planned nodes: at most one partition, and for injected shuffles only ones that fit. */
  lemma PlannedValue(e: Res.Settings, c: ChainJob, n: nat, ctx: Context, empty: Partition, order: seq<DagNode>,
                     m: DagNode)
    requires ChainPlan(c, n, empty, order) && m in Inject(order, n)
    requires var spec := PlanSpec(ChainSpec(c, n), order);
             WellFormed(spec) && Declared(spec.nodes, m.id) && Eval(spec, ExecOf(ctx), empty, m.id).Ok?
    ensures var value := Eval(PlanSpec(ChainSpec(c, n), order), ExecOf(ctx), empty, m.id).value;
            (m.id in c.ids && |value| <= 1) || Res.AllFitIn(e, value)
  {
    var spec := PlanSpec(ChainSpec(c, n), order);
    PlanQualifies(c, n, empty, order);
    PlannedNode(c, n, empty, order, m);
    FindDistinct(spec.nodes, m);
    if i :| 0 <= i < |c.ids| && m == DagNode(c.ids[i], c.ops[i]) {
      ChainEval(spec, c, ctx, empty, i);
      SlimValue(c, ctx, empty, i);
    } else {
      NoParent(spec, ExecOf(ctx), empty, m.id, m);
      EngineEmptyShufflesFit(e, ctx, empty);
      assert m.operator == ShuffleByKey(m.operator.key, m.operator.totalPartitions);
    }
  }

  /** A partition that does not fit is the only one of a live node of the chain. */
  lemma LargeIsLive(e: Res.Settings, c: ChainJob, n: nat, ctx: Context, empty: Partition, order: seq<DagNode>, k: nat,
                    results: Results, id: string, j: nat)
    requires ChainPlan(c, n, empty, order) && k <= |Inject(order, n)| && WellFormed(PlanSpec(ChainSpec(c, n), order))
    requires Holds(PlanSpec(ChainSpec(c, n), order), ExecOf(ctx), empty, Ids(Inject(order, n)[..k]), results)
    requires Res.Slot(e, results, id, j)
    ensures j == 0 && id in c.ids && Live(ChainEdges(c.ids), Ids(Inject(order, n)[..k]), id)
  {
    var plan := Inject(order, n);
    assert Declared(plan, id);
    var i :| 0 <= i < |plan| && Ids(plan)[i] == id;
    PlannedValue(e, c, n, ctx, empty, order, plan[i]);
  }

  lemma ChainIsApart(e: Res.Settings, c: ChainJob, n: nat, ctx: Context, empty: Partition, order: seq<DagNode>, k: nat,
                     results: Results)
    requires ChainPlan(c, n, empty, order) && k <= |Inject(order, n)| && WellFormed(PlanSpec(ChainSpec(c, n), order))
    requires Holds(PlanSpec(ChainSpec(c, n), order), ExecOf(ctx), empty, Ids(Inject(order, n)[..k]), results)
    ensures Res.Apart(e, results)
  {
    var spec, plan := PlanSpec(ChainSpec(c, n), order), Inject(order, n);
    var done := Ids(plan[..k]);
    PlanQualifies(c, n, empty, order);
    ForwardIsClosed(spec.edges, Ids(plan), k);
    assert Ids(plan)[..k] == done;
    forall a, i: nat, b, j: nat | Res.Slot(e, results, a, i) && Res.Slot(e, results, b, j) ensures a == b && i == j {
      LargeIsLive(e, c, n, ctx, empty, order, k, results, a, i);
      LargeIsLive(e, c, n, ctx, empty, order, k, results, b, j);
      LiveIsOne(spec, c, done, a, b);
    }
  }

  lemma SlimResult(c: ChainJob, n: nat, ctx: Context, empty: Partition, order: seq<DagNode>, done: seq<string>,
                   results: Results, i: nat)
    requires ChainPlan(c, n, empty, order) && i < |c.ids| && WellFormed(PlanSpec(ChainSpec(c, n), order))
    requires Holds(PlanSpec(ChainSpec(c, n), order), ExecOf(ctx), empty, done, results)
    ensures |Gather([c.ids[i]], results).0| <= 1
  {
    PlanQualifies(c, n, empty, order);
    GatherOne(c.ids[i], results);
    if c.ids[i] in results {
      ChainEval(PlanSpec(ChainSpec(c, n), order), c, ctx, empty, i);
      SlimValue(c, ctx, empty, i);
    }
  }

  /** A node of the chain is given at most one partition. */
  lemma SlimInputs(c: ChainJob, n: nat, ctx: Context, empty: Partition, order: seq<DagNode>, done: seq<string>,
                   results: Results, i: nat)
    requires ChainPlan(c, n, empty, order) && i < |c.ids| && WellFormed(PlanSpec(ChainSpec(c, n), order))
    requires Holds(PlanSpec(ChainSpec(c, n), order), ExecOf(ctx), empty, done, results)
    ensures |Inputs(empty, Parents(ChainEdges(c.ids), c.ids[i]), results).0| <= 1
  {
    ChainParent(c, i);
    if i > 0 {
      SlimResult(c, n, ctx, empty, order, done, results, i - 1);
    }
  }

  /** A stage with at most one input, and a read with none but the empty one, is orderly. */
  lemma SlimIsOrderly(e: Res.Settings, ctx: Context, empty: Partition, st: Stage, results: Results)
    requires Res.Fits(e, empty) && |Inputs(empty, st.parents, results).0| <= 1 &&
             (st.operator.Read? ==> st.parents == [])
    ensures Res.OrderlyAt(e, ExecOf(ctx), Ok(results), empty, st)
  {
    Res.PathsMatch(e, st.parents, results);
    EngineIsEngineLike(ctx);
    var ins := Inputs(empty, st.parents, results).0;
    assert |ins| == 1 ==> ins[..0] == [];
  }

  lemma ShuffleIsOrderly(e: Res.Settings, ctx: Context, empty: Partition, st: Stage, r: Result<Results, string>)
    requires st.operator.ShuffleByKey?
    ensures Res.OrderlyAt(e, ExecOf(ctx), r, empty, st)
  {
    if r.Ok? {
      Res.PathsMatch(e, st.parents, r.value);
    }
  }

  lemma ChainIsOrderly(e: Res.Settings, c: ChainJob, n: nat, ctx: Context, empty: Partition, order: seq<DagNode>,
                       k: nat, r: Result<Results, string>)
    requires ChainPlan(c, n, empty, order) && k < |Inject(order, n)| && WellFormed(PlanSpec(ChainSpec(c, n), order))
    requires r.Ok? ==> Holds(PlanSpec(ChainSpec(c, n), order), ExecOf(ctx), empty, Ids(Inject(order, n)[..k]), r.value)
    ensures Res.OrderlyAt(e, ExecOf(ctx), r, empty, StageOf(ChainEdges(c.ids), Inject(order, n)[k]))
  {
    var m := Inject(order, n)[k];
    PlannedNode(c, n, empty, order, m);
    if m.operator.ShuffleByKey? {
      ShuffleIsOrderly(e, ctx, empty, StageOf(ChainEdges(c.ids), m), r);
    } else if r.Ok? {
      var i :| 0 <= i < |c.ids| && m == DagNode(c.ids[i], c.ops[i]);
      EngineEmptyShufflesFit(e, ctx, empty);
      SlimInputs(c, n, ctx, empty, order, Ids(Inject(order, n)[..k]), r.value, i);
      ChainParent(c, i);
      SlimIsOrderly(e, ctx, empty, StageOf(ChainEdges(c.ids), m), r.value);
    }
  }

  /** A chain without client shuffles is untangled at every memory limit and with every choice of paths. */
  lemma ChainIsUntangled(e: Res.Settings, c: ChainJob, n: nat, ctx: Context, empty: Partition, order: seq<DagNode>)
    requires ChainPlan(c, n, empty, order)
    ensures Res.Untangled(e, ExecOf(ctx), empty, StagesFor(ChainEdges(c.ids), Inject(order, n)))
  {
    var plan, exec := Inject(order, n), ExecOf(ctx);
    var stages := StagesFor(ChainEdges(c.ids), plan);
    PlanQualifies(c, n, empty, order);
    EngineEmptyShufflesFit(e, ctx, empty);
    forall k | 0 <= k <= |stages| ensures Res.ApartAfter(e, RunStages(exec, empty, stages[..k])) {
      HeldAfter(c, n, ctx, empty, order, k);
      var r := RunStages(exec, empty, stages[..k]);
      if r.Ok? {
        ChainIsApart(e, c, n, ctx, empty, order, k, r.value);
      }
    }
    forall k | 0 <= k < |stages| ensures Res.OrderlyAt(e, exec, RunStages(exec, empty, stages[..k]), empty, stages[k]) {
      HeldAfter(c, n, ctx, empty, order, k);
      ChainIsOrderly(e, c, n, ctx, empty, order, k, RunStages(exec, empty, stages[..k]));
    }
  }

  // ----- tasks

  /** Both fail, or both yield the same. */
  ghost predicate SameOutcome<T>(a: Result<T, string>, b: Result<T, string>) {
    (a.Ok? <==> b.Ok?) && (a.Ok? ==> a == b)
  }

  lemma ChainTaskIsUntangled(e: Res.Settings, c: ChainJob, ctx: Context, empty: Partition, n: nat, job: Uuid,
                             tasks: seq<Task>, p: nat)
    requires ValidChain(c) && Slim(c) && empty.records == [] && PossibleTasks(ChainSpec(c, n), job, tasks) &&
             p < |tasks|
    ensures Res.Untangled(e, ExecOf(ctx), empty, StagesOf(tasks[p]))
  {
    ChainQualifies(c, n);
    var order := C.OrderOfTask(ChainSpec(c, n), job, tasks, p, LastId(c));
    ChainIsUntangled(e, c, n, ctx, empty, order);
  }

  /**
   A materialised task of a chain without client shuffles computes the chain of its operators, spill files included,
   whatever the memory limit.
   */
  lemma ChainRun(e: Res.Settings, c: ChainJob, ctx: Context, empty: Partition, n: nat, job: Uuid, tasks: seq<Task>,
                 p: nat)
    requires ValidChain(c) && Slim(c) && empty.records == [] && PossibleTasks(ChainSpec(c, n), job, tasks) &&
             p < |tasks|
    ensures SameOutcome(Res.StoredRun(e, ExecOf(ctx), empty, StagesOf(tasks[p]), FinalKey(tasks[p])),
                        ChainValue(c, ctx, empty, |c.ops| - 1))
  {
    var spec := ChainSpec(c, n);
    ChainQualifies(c, n);
    ChainTaskIsUntangled(e, c, ctx, empty, n, job, tasks, p);
    EngineShuffles(ctx, empty);
    EngineIsEngineLike(ctx);
    Res.StoredTaskMeaning(e, spec, ExecOf(ctx), empty, job, tasks, p, LastId(c));
    ChainIsLinked(c, n);
    ChainEval(spec, c, ctx, empty, |c.ids| - 1);
  }
}
