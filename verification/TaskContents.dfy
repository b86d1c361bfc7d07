/** What the tasks of a job say, told from its specification alone. */
module TaskContents {
  import opened Dag
  import opened Ordering
  import opened Planner
  import M = Master

  // ----- numbers in decimal

  function Digit(c: char): nat {
    if '0' <= c <= '9' then (c - '0') as nat else 0
  }

  /** The number a text of digits denotes. */
  function Denotes(s: string): nat {
    if s == "" then 0 else Denotes(s[..|s| - 1]) * 10 + Digit(s[|s| - 1])
  }

  /** `s` is `n` in decimal: digits only, without leading zeros. */
  ghost predicate IsDecimal(s: string, n: nat) {
    && s != "" && Denotes(s) == n
    && (forall c :: c in s ==> '0' <= c <= '9')
    && (s[0] == '0' ==> |s| == 1)
  }

  lemma {:induction false} DecimalDenotes(n: nat)
    ensures IsDecimal(Decimal(n), n)
    ensures n > 0 ==> Decimal(n)[0] != '0'
  {
    if n < 10 {
      assert Decimal(n)[..0] == "";
    } else {
      var init, c := Decimal(n / 10), DIGITS[n % 10];
      DecimalDenotes(n / 10);
      assert Decimal(n) == init + [c] && (init + [c])[..|init|] == init;
      assert Digit(c) == n % 10;
    }
  }

  // ----- edges into a node

  function EdgesInto(edges: seq<DagEdge>, id: string): seq<DagEdge> {
    if edges == [] then []
    else
      var init, e := edges[..|edges| - 1], edges[|edges| - 1];
      if e.dst == id then EdgesInto(init, id) + [e] else EdgesInto(init, id)
  }

  /** One text per edge into the node, in order: source, arrow, target. */
  ghost predicate IsLabelled(edges: seq<DagEdge>, id: string, labels: seq<string>) {
    var into := EdgesInto(edges, id);
    |labels| == |into| && forall k :: 0 <= k < |into| ==> labels[k] == into[k].src + "->" + id
  }

  lemma {:induction false} LabelsAre(edges: seq<DagEdge>, id: string)
    ensures IsLabelled(edges, id, Labels(edges, id)) && |Parents(edges, id)| == |EdgesInto(edges, id)|
  {
    if edges != [] {
      LabelsAre(edges[..|edges| - 1], id);
    }
  }

  /** A specification is valid exactly when two edges enter every join. */
  lemma ValidatedIff(spec: DagSpecification)
    ensures M.Validated(spec) <==>
            forall n :: n in spec.nodes && n.operator.Join? ==> |EdgesInto(spec.edges, n.id)| == 2
  {
    forall n | n in spec.nodes ensures |Parents(spec.edges, n.id)| == |EdgesInto(spec.edges, n.id)| {
      LabelsAre(spec.edges, n.id);
    }
  }

  // ----- stages

  /** The stage is a declared node, or a shuffle put in front of the reduction that follows. */
  ghost predicate IsStage(spec: DagSpecification, ids: seq<string>, ops: seq<OperatorType>, i: int)
    requires 0 <= i < |ids| == |ops|
  {
    || DagNode(ids[i], ops[i]) in spec.nodes
    || (&& i + 1 < |ids| && ops[i + 1].ReduceByKey? && DagNode(ids[i + 1], ops[i + 1]) in spec.nodes
        && ids[i] == "__shuffle_" + ids[i + 1] + "__" && ops[i] == ShuffleByKey(ops[i + 1].key, spec.partitions))
  }

  ghost predicate PlannedAt(nodes: seq<DagNode>, partitions: nat, out: seq<DagNode>, i: int)
    requires 0 <= i < |out|
  {
    || out[i] in nodes
    || (&& i + 1 < |out| && out[i + 1].operator.ReduceByKey? && out[i + 1] in nodes
        && out[i] == DagNode("__shuffle_" + out[i + 1].id + "__", ShuffleByKey(out[i + 1].operator.key, partitions)))
  }

  lemma {:induction false} InjectedAt(nodes: seq<DagNode>, partitions: nat, i: nat)
    requires i < |Inject(nodes, partitions)|
    ensures PlannedAt(nodes, partitions, Inject(nodes, partitions), i)
  {
    var init, n := nodes[..|nodes| - 1], nodes[|nodes| - 1];
    var before, out := Inject(init, partitions), Inject(nodes, partitions);
    assert nodes == init + [n] && n in nodes;
    if i < |before| {
      InjectedAt(init, partitions, i);
      assert out[i] == before[i] && (i + 1 < |before| ==> out[i + 1] == before[i + 1]);
    }
  }

  lemma OrderedNodesDeclared(spec: DagSpecification, order: seq<DagNode>)
    requires PossibleOrder(spec, order)
    ensures forall n :: n in order ==> n in spec.nodes
  {
    if spec.edges != [] {
      PossibleIsPlanned(spec, order);
    }
  }

  // ----- tasks

  /** The uri and format are those of the first read. */
  ghost predicate FirstRead(nodes: seq<DagNode>, uri: string, format: string) {
    exists i :: 0 <= i < |nodes| && nodes[i].operator == Read(uri, format) && forall k :: 0 <= k < i ==>
      !nodes[k].operator.Read?
  }

  ghost predicate NoRead(nodes: seq<DagNode>) {
    forall n :: n in nodes ==> !n.operator.Read?
  }

  lemma {:induction false} SourceIsFirstRead(nodes: seq<DagNode>)
    ensures ReadSource(nodes).None? <==> NoRead(nodes)
    ensures ReadSource(nodes).Some? ==> FirstRead(nodes, ReadSource(nodes).value.0, ReadSource(nodes).value.1)
  {
    if nodes != [] {
      assert nodes == [nodes[0]] + nodes[1..];
      SourceIsFirstRead(nodes[1..]);
      if !nodes[0].operator.Read? && ReadSource(nodes).Some? {
        var (uri, format) := ReadSource(nodes).value;
        var i :| 0 <= i < |nodes[1..]| && nodes[1..][i].operator == Read(uri, format) &&
          forall k :: 0 <= k < i ==> !nodes[1..][k].operator.Read?;
        assert nodes[i + 1].operator == Read(uri, format);
        assert forall k :: 0 <= k < i + 1 ==> !nodes[k].operator.Read?;
      }
    }
  }

  /** What the task of partition `p` says. */
  ghost predicate SaysTask(spec: DagSpecification, job: Uuid, p: nat, t: Task) {
    && t.jobId == job && t.partition == p && t.totalPartitions == spec.partitions && t.attempt == 0
    && t.stageId + 1 == |t.operators| == |t.operatorIds| == |t.incomingEdges|
    && t.operator == t.operators[t.stageId]
    && FirstRead(spec.nodes, t.inputUri, t.inputFormat)
    && NamedByStage(t, job, p)
    && (forall i :: 0 <= i < |t.operatorIds| ==> IsStage(spec, t.operatorIds, t.operators, i))
    && forall i :: 0 <= i < |t.operatorIds| ==> IsLabelled(spec.edges, t.operatorIds[i], t.incomingEdges[i])
  }

  /** The id is the version 5 identifier of final stage, dash and partition in the job's namespace. */
  ghost predicate NamedByStage(t: Task, job: Uuid, p: nat) {
    exists a, b :: IsDecimal(a, t.stageId) && IsDecimal(b, p) && t.taskId == V5(job, a + "-" + b)
  }

  lemma PlanSaysTask(spec: DagSpecification, job: Uuid, order: seq<DagNode>, p: nat)
    requires PossibleOrder(spec, order) && ReadSource(spec.nodes).Some? && Inject(order, spec.partitions) != []
    ensures SaysTask(spec, job, p, TaskFor(spec, job, Inject(order, spec.partitions), p))
  {
    var plan := Inject(order, spec.partitions);
    var t := TaskFor(spec, job, plan, p);
    SourceIsFirstRead(spec.nodes);
    OrderedNodesDeclared(spec, order);
    DecimalDenotes(t.stageId);
    DecimalDenotes(p);
    assert t.taskId == V5(job, Decimal(t.stageId) + "-" + Decimal(p));
    forall i | 0 <= i < |plan| ensures IsStage(spec, t.operatorIds, t.operators, i) {
      InjectedAt(order, spec.partitions, i);
      assert DagNode(t.operatorIds[i], t.operators[i]) == plan[i];
    }
    forall i | 0 <= i < |plan| ensures IsLabelled(spec.edges, t.operatorIds[i], t.incomingEdges[i]) {
      LabelsAre(spec.edges, plan[i].id);
    }
  }

  /** Every materialisation: no tasks exactly without a read or partitions, and otherwise one task per partition. */
  lemma TasksSay(spec: DagSpecification, job: Uuid, tasks: seq<Task>)
    requires PossibleTasks(spec, job, tasks)
    ensures |tasks| == if NoRead(spec.nodes) then 0 else spec.partitions
    ensures forall p :: 0 <= p < |tasks| ==> SaysTask(spec, job, p, tasks[p])
  {
    SourceIsFirstRead(spec.nodes);
    if !NoRead(spec.nodes) {
      var order :| TasksFrom(spec, job, order, tasks);
      forall p | 0 <= p < |tasks| ensures SaysTask(spec, job, p, tasks[p]) {
        PlanSaysTask(spec, job, order, p);
      }
    }
  }
}
