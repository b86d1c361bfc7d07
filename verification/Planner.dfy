/** From a specification to tasks: shuffle injection, edge labels and deterministic task ids. */
module Planner {
  import opened Prelude
  import opened Dag
  import opened Graph
  import opened Ordering

  /** Version 5 identifiers are an injective function of namespace and name. */
  datatype Uuid = V4(n: nat) | V5(ns: Uuid, name: string)

  datatype Task = Task(
    taskId: Uuid,
    jobId: Uuid,
    stageId: nat,
    attempt: nat,
    operator: OperatorType,
    operators: seq<OperatorType>,
    operatorIds: seq<string>,
    incomingEdges: seq<seq<string>>,
    partition: nat,
    inputUri: string,
    inputFormat: string,
    totalPartitions: nat)

  // ----- shuffle injection

  function ShuffleId(id: string): string {
    "__shuffle_" + id + "__"
  }

  predicate ShuffledOn(n: DagNode, key: string) {
    n.operator.ShuffleByKey? && n.operator.key == key
  }

  /** Whether a reduction on `key` that follows `out` already finds a shuffle on `key`. */
  predicate EndsInShuffle(out: seq<DagNode>, key: string) {
    out != [] && ShuffledOn(out[|out| - 1], key)
  }

  function Inject(nodes: seq<DagNode>, partitions: nat): seq<DagNode> {
    if nodes == [] then []
    else
      var out, n := Inject(nodes[..|nodes| - 1], partitions), nodes[|nodes| - 1];
      if n.operator.ReduceByKey? && !EndsInShuffle(out, n.operator.key) then
        out + [DagNode(ShuffleId(n.id), ShuffleByKey(n.operator.key, partitions)), n]
      else
        out + [n]
  }

  /** `inject_local_shuffle`. */
  method InjectLocalShuffle(nodes: seq<DagNode>, partitions: nat) returns (out: seq<DagNode>)
    ensures out == Inject(nodes, partitions)
  {
    out := [];
    for i := 0 to |nodes|
      invariant out == Inject(nodes[..i], partitions)
    {
      assert nodes[..i + 1][..i] == nodes[..i];
      var node := nodes[i];
      if node.operator.ReduceByKey? {
        var hasShuffleBefore := out != [] && out[|out| - 1].operator.ShuffleByKey? &&
            out[|out| - 1].operator.key == node.operator.key;
        if !hasShuffleBefore {
          out := out + [DagNode(ShuffleId(node.id), ShuffleByKey(node.operator.key, partitions))];
        }
        out := out + [node];
      } else {
        out := out + [node];
      }
    }
    assert nodes[..|nodes|] == nodes;
  }

  /** The ids injection may introduce. */
  ghost function InjectedIds(nodes: seq<DagNode>): set<string> {
    set n | n in nodes && n.operator.ReduceByKey? :: ShuffleId(n.id)
  }

  /** Every reduction in the injected list directly follows a shuffle on its key. */
  lemma {:induction false} ReductionsAreShuffled(nodes: seq<DagNode>, partitions: nat, i: nat)
    requires i < |Inject(nodes, partitions)| && Inject(nodes, partitions)[i].operator.ReduceByKey?
    ensures i > 0
    ensures ShuffledOn(Inject(nodes, partitions)[i - 1], Inject(nodes, partitions)[i].operator.key)
  {
    var out := Inject(nodes[..|nodes| - 1], partitions);
    if i < |out| {
      ReductionsAreShuffled(nodes[..|nodes| - 1], partitions, i);
    }
  }

  /** Erasing the injected ids gives the node list back. */
  lemma {:induction false} EraseInjected(nodes: seq<DagNode>, partitions: nat, injected: set<string>)
    requires InjectedIds(nodes) <= injected
    requires forall n :: n in nodes ==> n.id !in injected
    ensures Filter(Inject(nodes, partitions), (n: DagNode) => n.id !in injected) == nodes
  {
    var keep := (n: DagNode) => n.id !in injected;
    if nodes == [] {
    } else {
      var init, n := nodes[..|nodes| - 1], nodes[|nodes| - 1];
      assert nodes == init + [n] && n in nodes;
      EraseInjected(init, partitions, injected);
      var out := Inject(init, partitions);
      if n.operator.ReduceByKey? && !EndsInShuffle(out, n.operator.key) {
        var s := DagNode(ShuffleId(n.id), ShuffleByKey(n.operator.key, partitions));
        assert s.id in InjectedIds(nodes);
        FilterTwo(out, s, n, keep);
      } else {
        FilterOne(out, n, keep);
      }
    }
  }

  lemma FilterOne<T>(s: seq<T>, x: T, p: T -> bool)
    requires p(x)
    ensures Filter(s + [x], p) == Filter(s, p) + [x]
  {
    assert (s + [x])[..|s|] == s;
  }

  lemma FilterTwo<T>(s: seq<T>, x: T, y: T, p: T -> bool)
    requires !p(x) && p(y)
    ensures Filter(s + [x, y], p) == Filter(s, p) + [y]
  {
    assert s + [x, y] == (s + [x]) + [y];
    FilterOne(s + [x], y, p);
    assert (s + [x])[..|s|] == s;
  }

  // ----- edge labels

  function Label(e: DagEdge): string {
    e.src + "->" + e.dst
  }

  /** Position of the first "->", or the length of `s`. */
  function FirstArrow(s: string): (r: nat)
    ensures r <= |s|
    ensures r < |s| ==> r + 1 < |s| && s[r] == '-' && s[r + 1] == '>'
    ensures forall i :: 0 <= i < r && i + 1 < |s| ==> !(s[i] == '-' && s[i + 1] == '>')
  {
    if |s| < 2 then |s|
    else if s[0] == '-' && s[1] == '>' then 0
    else 1 + FirstArrow(s[1..])
  }

  /** The executor's reading of a label: the text before the first arrow. */
  function ParentOf(text: string): string {
    text[..FirstArrow(text)]
  }

  ghost predicate HasArrow(s: string) {
    exists i :: 0 <= i < |s| - 1 && s[i] == '-' && s[i + 1] == '>'
  }

  lemma ArrowInSource(e: DagEdge)
    ensures FirstArrow(Label(e)) <= |e.src|
    ensures FirstArrow(Label(e)) < |e.src| <==> HasArrow(e.src)
  {
    var s, at := Label(e), FirstArrow(Label(e));
    assert s[|e.src|] == '-' && s[|e.src| + 1] == '>';
    assert forall i :: 0 <= i < |e.src| ==> s[i] == e.src[i];
    if at < |e.src| {
      assert at + 1 != |e.src|;
      assert e.src[at] == '-' && e.src[at + 1] == '>';
    }
    if HasArrow(e.src) {
      var i :| 0 <= i < |e.src| - 1 && e.src[i] == '-' && e.src[i + 1] == '>';
      assert s[i] == '-' && s[i + 1] == '>';
      assert at <= i;
    }
  }

  /** A label gives its source back exactly when the source contains no arrow. */
  lemma LabelRoundTrip(e: DagEdge)
    ensures ParentOf(Label(e)) == e.src <==> !HasArrow(e.src)
  {
    ArrowInSource(e);
    assert Label(e)[..|e.src|] == e.src;
  }

  /** Sources of the edges into `id`, in edge order. */
  function Parents(edges: seq<DagEdge>, id: string): (r: seq<string>)
    ensures forall p :: p in r <==> DagEdge(p, id) in edges
  {
    if edges == [] then []
    else
      var init, e := edges[..|edges| - 1], edges[|edges| - 1];
      assert edges == init + [e];
      Parents(init, id) + (if e.dst == id then [e.src] else [])
  }

  /** Labels of the edges into `id`, in edge order. */
  function Labels(edges: seq<DagEdge>, id: string): seq<string> {
    if edges == [] then []
    else
      var e := edges[|edges| - 1];
      Labels(edges[..|edges| - 1], id) + (if e.dst == id then [Label(e)] else [])
  }

  function ParentsOf(labels: seq<string>): (r: seq<string>)
    ensures |r| == |labels| && forall i :: 0 <= i < |r| ==> r[i] == ParentOf(labels[i])
  {
    seq(|labels|, i requires 0 <= i < |labels| => ParentOf(labels[i]))
  }

  /** Reading the labels of arrow-free edges gives the parents. */
  lemma {:induction false} LabelsRoundTrip(edges: seq<DagEdge>, id: string)
    requires forall e :: e in edges ==> !HasArrow(e.src)
    ensures ParentsOf(Labels(edges, id)) == Parents(edges, id)
  {
    if edges == [] {
    } else {
      var init, e := edges[..|edges| - 1], edges[|edges| - 1];
      assert edges == init + [e];
      LabelsRoundTrip(init, id);
      LabelRoundTrip(e);
      assert ParentsOf(Labels(init, id) + [Label(e)]) == ParentsOf(Labels(init, id)) + [ParentOf(Label(e))];
    }
  }

  // ----- task ids

  const DIGITS := "0123456789"

  function Decimal(n: nat): (r: string)
    ensures |r| > 0 && forall c :: c in r ==> c in DIGITS
  {
    if n < 10 then [DIGITS[n]] else Decimal(n / 10) + [DIGITS[n % 10]]
  }

  lemma {:induction false} DecimalInjective(a: nat, b: nat)
    requires Decimal(a) == Decimal(b)
    ensures a == b
  {
    var s := Decimal(a);
    if a < 10 || b < 10 {
      assert |Decimal(a)| == 1 && |Decimal(b)| == 1;
    } else {
      assert Decimal(a)[..|s| - 1] == Decimal(a / 10);
      assert Decimal(b)[..|s| - 1] == Decimal(b / 10);
      DecimalInjective(a / 10, b / 10);
      assert s[|s| - 1] == DIGITS[a % 10] == DIGITS[b % 10];
    }
  }

  function StableName(stage: nat, partition: nat): string {
    Decimal(stage) + "-" + Decimal(partition)
  }

  function TaskIdFor(job: Uuid, stage: nat, partition: nat): Uuid {
    V5(job, StableName(stage, partition))
  }

  /** The first dash of a name separates its two parts. */
  lemma SplitAtDash(a: string, p: string, b: string, q: string)
    requires '-' !in a && '-' !in b && a + "-" + p == b + "-" + q
    ensures a == b && p == q
  {
    var s := a + "-" + p;
    assert forall i :: 0 <= i < |a| ==> a[i] in a && s[i] != '-';
    assert forall i :: 0 <= i < |b| ==> b[i] in b && s[i] != '-';
    assert s[|a|] == '-' && s[|b|] == '-';
    assert s[..|a|] == a && s[..|b|] == b;
    assert s[|a| + 1..] == p && s[|b| + 1..] == q;
  }

  /** Task ids determine job, final stage and partition. */
  lemma TaskIdInjective(j1: Uuid, s1: nat, p1: nat, j2: Uuid, s2: nat, p2: nat)
    requires TaskIdFor(j1, s1, p1) == TaskIdFor(j2, s2, p2)
    ensures j1 == j2 && s1 == s2 && p1 == p2
  {
    assert '-' !in DIGITS;
    SplitAtDash(Decimal(s1), Decimal(p1), Decimal(s2), Decimal(p2));
    DecimalInjective(s1, s2);
    DecimalInjective(p1, p2);
  }

  // ----- materialisation

  /** The first Read node's source. */
  function ReadSource(nodes: seq<DagNode>): Option<(string, string)> {
    if nodes == [] then None
    else if nodes[0].operator.Read? then Some((nodes[0].operator.uri, nodes[0].operator.format))
    else ReadSource(nodes[1..])
  }

  function Operators(nodes: seq<DagNode>): (r: seq<OperatorType>)
    ensures |r| == |nodes| && forall i :: 0 <= i < |r| ==> r[i] == nodes[i].operator
  {
    seq(|nodes|, i requires 0 <= i < |nodes| => nodes[i].operator)
  }

  function AllLabels(edges: seq<DagEdge>, nodes: seq<DagNode>): (r: seq<seq<string>>)
    ensures |r| == |nodes| && forall i :: 0 <= i < |r| ==> r[i] == Labels(edges, nodes[i].id)
  {
    seq(|nodes|, i requires 0 <= i < |nodes| => Labels(edges, nodes[i].id))
  }

  /** The task of one partition for a planned node list. */
  function TaskFor(spec: DagSpecification, job: Uuid, plan: seq<DagNode>, partition: nat): Task
    requires plan != [] && ReadSource(spec.nodes).Some?
  {
    var stage := |plan| - 1;
    var (uri, format) := ReadSource(spec.nodes).value;
    Task(TaskIdFor(job, stage, partition), job, stage, 0, plan[stage].operator, Operators(plan), Ids(plan),
         AllLabels(spec.edges, plan), partition, uri, format, spec.partitions)
  }

  ghost predicate TasksFrom(spec: DagSpecification, job: Uuid, order: seq<DagNode>, tasks: seq<Task>) {
    var plan := Inject(order, spec.partitions);
    && PossibleOrder(spec, order)
    && plan != [] && ReadSource(spec.nodes).Some?
    && |tasks| == spec.partitions
    && forall p :: 0 <= p < |tasks| ==> tasks[p] == TaskFor(spec, job, plan, p)
  }

  /** A task list `materialize_tasks` may return. */
  ghost predicate PossibleTasks(spec: DagSpecification, job: Uuid, tasks: seq<Task>) {
    if ReadSource(spec.nodes).None? then tasks == []
    else exists order :: TasksFrom(spec, job, order, tasks)
  }

  lemma {:induction false} InjectNonEmpty(nodes: seq<DagNode>, partitions: nat)
    requires nodes != []
    ensures Inject(nodes, partitions) != []
    ensures Inject(nodes, partitions)[|Inject(nodes, partitions)| - 1] == nodes[|nodes| - 1]
  {
  }

  lemma {:induction false} ReadSourceDeclared(nodes: seq<DagNode>)
    requires ReadSource(nodes).Some?
    ensures nodes != []
  {
  }

  lemma PossibleOrderNonEmpty(spec: DagSpecification, order: seq<DagNode>)
    requires PossibleOrder(spec, order) && spec.nodes != []
    ensures order != []
  {
    if spec.edges != [] {
      PossibleIsPlanned(spec, order);
      assert Ids(spec.nodes)[0] in Elems(Ids(spec.nodes));
      assert Elems(Ids(order)) != {};
    }
  }

  /** One task per partition for a planned node list. */
  function TaskList(spec: DagSpecification, job: Uuid, plan: seq<DagNode>): (r: seq<Task>)
    requires plan != [] && ReadSource(spec.nodes).Some?
    ensures |r| == spec.partitions && forall p :: 0 <= p < |r| ==> r[p] == TaskFor(spec, job, plan, p)
  {
    seq(spec.partitions, p requires 0 <= p < spec.partitions => TaskFor(spec, job, plan, p))
  }

  /** The partition loop. */
  method BuildTasks(spec: DagSpecification, job: Uuid, plan: seq<DagNode>) returns (tasks: seq<Task>)
    requires plan != [] && ReadSource(spec.nodes).Some?
    ensures tasks == TaskList(spec, job, plan)
  {
    tasks := [];
    for partition := 0 to spec.partitions
      invariant |tasks| == partition
      invariant forall p :: 0 <= p < partition ==> tasks[p] == TaskFor(spec, job, plan, p)
    {
      tasks := tasks + [TaskFor(spec, job, plan, partition)];
    }
  }

  /** `materialize_tasks`. */
  method MaterializeTasks(spec: DagSpecification, job: Uuid) returns (tasks: seq<Task>)
    ensures PossibleTasks(spec, job, tasks)
  {
    var source := ReadSource(spec.nodes);
    tasks := [];
    if source.None? {
      return;
    }
    var ordered := OrderedNodes(spec);
    var plan := InjectLocalShuffle(ordered, spec.partitions);
    ReadSourceDeclared(spec.nodes);
    PossibleOrderNonEmpty(spec, ordered);
    InjectNonEmpty(ordered, spec.partitions);
    tasks := BuildTasks(spec, job, plan);
    assert TasksFrom(spec, job, ordered, tasks);
  }

  // ----- stability

  function Reductions(nodes: seq<DagNode>): nat {
    |Filter(nodes, (n: DagNode) => n.operator.ReduceByKey?)|
  }

  /** How many reductions directly follow a shuffle on their key. */
  function Preshuffled(nodes: seq<DagNode>): (r: nat)
    ensures r <= Reductions(nodes)
  {
    if nodes == [] then 0
    else
      var init, n := nodes[..|nodes| - 1], nodes[|nodes| - 1];
      Preshuffled(init) + (if n.operator.ReduceByKey? && EndsInShuffle(init, n.operator.key) then 1 else 0)
  }

  /** Injection adds one node for each reduction that does not directly follow a shuffle on its key. */
  lemma {:induction false} InjectLength(nodes: seq<DagNode>, partitions: nat)
    ensures |Inject(nodes, partitions)| == |nodes| + Reductions(nodes) - Preshuffled(nodes)
  {
    if nodes == [] {
    } else {
      var init, n := nodes[..|nodes| - 1], nodes[|nodes| - 1];
      InjectLength(init, partitions);
      if init != [] {
        InjectNonEmpty(init, partitions);
      }
      assert n.operator.ReduceByKey? ==>
          (EndsInShuffle(Inject(init, partitions), n.operator.key) <==> EndsInShuffle(init, n.operator.key));
    }
  }

  lemma {:induction false} FilterMultiset<T>(s: seq<T>, p: T -> bool, x: T)
    ensures multiset(Filter(s, p))[x] == if p(x) then multiset(s)[x] else 0
  {
    if s == [] {
    } else {
      FilterMultiset(s[..|s| - 1], p, x);
      assert s == s[..|s| - 1] + [s[|s| - 1]];
    }
  }

  lemma PermutedReductions(a: seq<DagNode>, b: seq<DagNode>)
    requires multiset(a) == multiset(b)
    ensures |a| == |b| && Reductions(a) == Reductions(b)
  {
    var p := (n: DagNode) => n.operator.ReduceByKey?;
    forall x ensures multiset(Filter(a, p))[x] == multiset(Filter(b, p))[x] {
      FilterMultiset(a, p, x);
      FilterMultiset(b, p, x);
    }
    assert multiset(Filter(a, p)) == multiset(Filter(b, p));
    assert |multiset(a)| == |a| && |multiset(b)| == |b|;
    assert |multiset(Filter(a, p))| == |Filter(a, p)|;
    assert |multiset(Filter(b, p))| == |Filter(b, p)|;
  }

  /** Any two orders of one specification are permutations of each other. */
  lemma OrdersArePermutations(spec: DagSpecification, a: seq<DagNode>, b: seq<DagNode>)
    requires PossibleOrder(spec, a) && PossibleOrder(spec, b)
    ensures multiset(a) == multiset(b)
    ensures forall n :: n in a ==> n in spec.nodes
  {
    if spec.edges != [] {
      PossibleIsPlanned(spec, a);
      PossibleIsPlanned(spec, b);
      NodesNoDup(a);
      NodesNoDup(b);
      forall n ensures n in a <==> n in b {
        SameNode(spec.nodes, a, b, n);
        SameNode(spec.nodes, b, a, n);
      }
      assert Elems(a) == Elems(b);
      NoDupMultiset(a, b);
    }
  }

  lemma SameNode(nodes: seq<DagNode>, a: seq<DagNode>, b: seq<DagNode>, n: DagNode)
    requires OneNodePerId(nodes, a) && OneNodePerId(nodes, b)
    ensures n in a ==> n in b
  {
    if n in a {
      var i :| 0 <= i < |a| && a[i] == n;
      assert Ids(a)[i] in Elems(Ids(a));
      assert n.id in Elems(Ids(b));
      var k :| 0 <= k < |b| && Ids(b)[k] == n.id;
      assert Find(nodes, n.id) == Some(n) && Find(nodes, b[k].id) == Some(b[k]);
    }
  }

  /**
   Two orders of one specification have the same final stage exactly when they have as many preshuffled reductions.
   */
  lemma SameFinalStageIff(spec: DagSpecification, a: seq<DagNode>, b: seq<DagNode>)
    requires PossibleOrder(spec, a) && PossibleOrder(spec, b)
    ensures |Inject(a, spec.partitions)| == |Inject(b, spec.partitions)| <==> Preshuffled(a) == Preshuffled(b)
  {
    OrdersArePermutations(spec, a, b);
    InjectLength(a, spec.partitions);
    InjectLength(b, spec.partitions);
    PermutedReductions(a, b);
  }

  /** Every task has the id of its position and the given final stage. */
  ghost predicate NumberedBy(job: Uuid, stage: nat, tasks: seq<Task>) {
    forall p :: 0 <= p < |tasks| ==> tasks[p].taskId == TaskIdFor(job, stage, p) && tasks[p].partition == p
  }

  lemma TaskIdsOf(spec: DagSpecification, job: Uuid, order: seq<DagNode>, tasks: seq<Task>)
    requires TasksFrom(spec, job, order, tasks)
    ensures |tasks| == spec.partitions && PossibleOrder(spec, order) && Inject(order, spec.partitions) != []
    ensures NumberedBy(job, |Inject(order, spec.partitions)| - 1, tasks)
  {
  }

  lemma NumberedAlike(job: Uuid, stage: nat, a: seq<Task>, b: seq<Task>)
    requires NumberedBy(job, stage, a) && NumberedBy(job, stage, b) && |a| == |b|
    ensures forall i :: 0 <= i < |a| ==> a[i].taskId == b[i].taskId && a[i].partition == b[i].partition
  {
  }

  ghost predicate SameTaskIds(a: seq<Task>, b: seq<Task>) {
    |a| == |b| && forall i :: 0 <= i < |a| ==> a[i].taskId == b[i].taskId && a[i].partition == b[i].partition
  }

  /** Any two materialisations of a job yield the same task ids. */
  ghost predicate StableIds(spec: DagSpecification, job: Uuid) {
    forall a, b :: PossibleTasks(spec, job, a) && PossibleTasks(spec, job, b) ==> SameTaskIds(a, b)
  }

  /** Every first queue leads to the same number of preshuffled reductions. */
  ghost predicate OneShuffleCount(spec: DagSpecification) {
    forall x, y :: PossibleOrder(spec, x) && PossibleOrder(spec, y) ==> Preshuffled(x) == Preshuffled(y)
  }

  /** The job has no tasks, or its shuffle count does not depend on the first queue. */
  ghost predicate StablePlan(spec: DagSpecification) {
    ReadSource(spec.nodes).None? || spec.partitions == 0 || OneShuffleCount(spec)
  }

  lemma StageOfTasks(spec: DagSpecification, job: Uuid, tasks: seq<Task>) returns (order: seq<DagNode>, stage: nat)
    requires PossibleTasks(spec, job, tasks) && ReadSource(spec.nodes).Some?
    ensures PossibleOrder(spec, order) && stage + 1 == |Inject(order, spec.partitions)|
    ensures |tasks| == spec.partitions && NumberedBy(job, stage, tasks)
  {
    order :| TasksFrom(spec, job, order, tasks);
    TaskIdsOf(spec, job, order, tasks);
    stage := |Inject(order, spec.partitions)| - 1;
  }

  lemma StableTasks(spec: DagSpecification, job: Uuid, a: seq<Task>, b: seq<Task>)
    requires OneShuffleCount(spec) && PossibleTasks(spec, job, a) && PossibleTasks(spec, job, b)
    ensures SameTaskIds(a, b)
  {
    if ReadSource(spec.nodes).Some? {
      var x, i := StageOfTasks(spec, job, a);
      var y, j := StageOfTasks(spec, job, b);
      SameFinalStageIff(spec, x, y);
      NumberedAlike(job, i, a, b);
    }
  }

  lemma TaskListNumbered(spec: DagSpecification, job: Uuid, plan: seq<DagNode>)
    requires plan != [] && ReadSource(spec.nodes).Some?
    ensures NumberedBy(job, |plan| - 1, TaskList(spec, job, plan))
  {
  }

  /** The tasks one order gives. */
  lemma TasksOf(spec: DagSpecification, job: Uuid, order: seq<DagNode>) returns (tasks: seq<Task>, stage: nat)
    requires PossibleOrder(spec, order) && ReadSource(spec.nodes).Some?
    ensures PossibleTasks(spec, job, tasks) && |tasks| == spec.partitions
    ensures stage + 1 == |Inject(order, spec.partitions)| && NumberedBy(job, stage, tasks)
  {
    ReadSourceDeclared(spec.nodes);
    PossibleOrderNonEmpty(spec, order);
    InjectNonEmpty(order, spec.partitions);
    var plan := Inject(order, spec.partitions);
    tasks, stage := TaskList(spec, job, plan), |plan| - 1;
    TaskListNumbered(spec, job, plan);
    assert TasksFrom(spec, job, order, tasks);
  }

  /** Every specification with a read node can be materialised. */
  lemma TasksExist(spec: DagSpecification, job: Uuid) returns (tasks: seq<Task>)
    requires ReadSource(spec.nodes).Some?
    ensures PossibleTasks(spec, job, tasks) && |tasks| == spec.partitions
  {
    var order := OrderExists(spec);
    var stage;
    tasks, stage := TasksOf(spec, job, order);
  }

  lemma DifferentNumbers(job: Uuid, x: nat, y: nat, a: seq<Task>, b: seq<Task>)
    requires x != y && |a| > 0 && |b| > 0 && NumberedBy(job, x, a) && NumberedBy(job, y, b)
    ensures !SameTaskIds(a, b)
  {
    if a[0].taskId == b[0].taskId {
      TaskIdInjective(job, x, 0, job, y, 0);
    }
  }

  lemma UnlikeTasks(spec: DagSpecification, job: Uuid, x: seq<DagNode>, y: seq<DagNode>)
    returns (a: seq<Task>, b: seq<Task>)
    requires PossibleOrder(spec, x) && PossibleOrder(spec, y) &&
             |Inject(x, spec.partitions)| != |Inject(y, spec.partitions)|
    requires ReadSource(spec.nodes).Some? && spec.partitions > 0
    ensures PossibleTasks(spec, job, a) && PossibleTasks(spec, job, b) && !SameTaskIds(a, b)
  {
    var i, j;
    a, i := TasksOf(spec, job, x);
    b, j := TasksOf(spec, job, y);
    DifferentNumbers(job, i, j, a, b);
  }

  lemma DifferentStagesDifferentIds(spec: DagSpecification, job: Uuid, x: seq<DagNode>, y: seq<DagNode>)
    requires PossibleOrder(spec, x) && PossibleOrder(spec, y) && Preshuffled(x) != Preshuffled(y)
    requires ReadSource(spec.nodes).Some? && spec.partitions > 0
    ensures !StableIds(spec, job)
  {
    SameFinalStageIff(spec, x, y);
    var a, b := UnlikeTasks(spec, job, x, y);
  }

  /** A job's task ids are the same in every materialisation exactly when its plan is stable. */
  lemma TaskIdsStableIff(spec: DagSpecification, job: Uuid)
    ensures StableIds(spec, job) <==> StablePlan(spec)
  {
    if ReadSource(spec.nodes).Some? && spec.partitions > 0 {
      if OneShuffleCount(spec) {
        forall a, b | PossibleTasks(spec, job, a) && PossibleTasks(spec, job, b) ensures SameTaskIds(a, b) {
          StableTasks(spec, job, a, b);
        }
      } else {
        var x, y :| PossibleOrder(spec, x) && PossibleOrder(spec, y) && Preshuffled(x) != Preshuffled(y);
        DifferentStagesDifferentIds(spec, job, x, y);
      }
    }
  }

  // ----- when the shuffle count cannot vary

  /** No node written by the client shuffles on the key of one of its reductions. */
  ghost predicate NoClientShuffle(nodes: seq<DagNode>) {
    forall s, r :: s in nodes && r in nodes && r.operator.ReduceByKey? ==> !ShuffledOn(s, r.operator.key)
  }

  lemma {:induction false} NothingPreshuffled(nodes: seq<DagNode>)
    requires NoClientShuffle(nodes)
    ensures Preshuffled(nodes) == 0
  {
    if nodes == [] {
    } else {
      var init, n := nodes[..|nodes| - 1], nodes[|nodes| - 1];
      assert n in nodes && forall m :: m in init ==> m in nodes;
      NothingPreshuffled(init);
      assert init != [] ==> init[|init| - 1] in nodes;
    }
  }

  /** Without client shuffles on reduction keys the ids are stable. */
  lemma NoClientShuffleIsStable(spec: DagSpecification)
    requires NoClientShuffle(spec.nodes)
    ensures OneShuffleCount(spec)
  {
    forall x | PossibleOrder(spec, x) ensures Preshuffled(x) == 0 {
      OrdersArePermutations(spec, x, x);
      NothingPreshuffled(x);
    }
  }

  /** With at most one id that no edge enters there is one first queue, hence one order. */
  lemma OneReadyIsStable(spec: DagSpecification, id: string)
    requires forall x :: x in Keys(spec) && PredsIn(spec.edges, x, {}) ==> x == id
    ensures forall x, y :: PossibleOrder(spec, x) && PossibleOrder(spec, y) ==> x == y
    ensures OneShuffleCount(spec)
  {
    forall f, g | ReadyQueue(spec, f) && ReadyQueue(spec, g) ensures f == g {
      OneElement(f, id);
      OneElement(g, id);
      assert f == [] || f[0] in f;
      assert g == [] || g[0] in g;
    }
  }

  lemma OneElement(s: seq<string>, id: string)
    requires NoDup(s) && forall x :: x in s ==> x == id
    ensures s == [] || s == [id]
  {
    NoDupSize(s);
    assert Elems(s) <= {id};
    SubsetSize(Elems(s), {id});
    assert s != [] ==> s[0] in s;
  }

  lemma Entered(edges: seq<DagEdge>, k: nat)
    requires k < |edges|
    ensures !PredsIn(edges, edges[k].dst, {})
  {
    assert edges[k] in edges;
  }

  /** A read, a client shuffle and a reduction on its key in a chain: one order, although the client shuffles. */
  lemma ShuffledChainIsStable(x: DagNode, s: DagNode, g: DagNode, partitions: nat)
    requires x.id != s.id && x.id != g.id && s.id != g.id
    ensures OneShuffleCount(DagSpecification([x, s, g], [DagEdge(x.id, s.id), DagEdge(s.id, g.id)], partitions))
  {
    var spec := DagSpecification([x, s, g], [DagEdge(x.id, s.id), DagEdge(s.id, g.id)], partitions);
    assert Ids(spec.nodes) == [x.id, s.id, g.id];
    Entered(spec.edges, 0);
    Entered(spec.edges, 1);
    OneReadyIsStable(spec, x.id);
  }

  /** The tasks of one materialisation have pairwise distinct ids, on every specification. */
  lemma TaskIdsDistinct(spec: DagSpecification, job: Uuid, tasks: seq<Task>)
    requires PossibleTasks(spec, job, tasks)
    ensures forall i, j :: 0 <= i < j < |tasks| ==> tasks[i].taskId != tasks[j].taskId
    ensures forall i :: 0 <= i < |tasks| ==> tasks[i].jobId == job && tasks[i].taskId.V5? && tasks[i].taskId.ns == job
  {
    if ReadSource(spec.nodes).Some? {
      var order :| TasksFrom(spec, job, order, tasks);
      var stage := |Inject(order, spec.partitions)| - 1;
      forall i, j | 0 <= i < j < |tasks| ensures tasks[i].taskId != tasks[j].taskId {
        if tasks[i].taskId == tasks[j].taskId {
          TaskIdInjective(job, stage, i, job, stage, j);
        }
      }
    }
  }

  // ----- client shuffles make task ids depend on the order

  lemma FindDistinct(nodes: seq<DagNode>, n: DagNode)
    requires DistinctIds(nodes) && n in nodes
    ensures Declared(nodes, n.id) && Find(nodes, n.id) == Some(n)
  {
    var i :| 0 <= i < |nodes| && nodes[i] == n;
    assert Ids(nodes)[i] == n.id;
    SameIdSameNode(nodes, n, Find(nodes, n.id).value);
  }

  lemma SameIdSameNode(nodes: seq<DagNode>, n: DagNode, m: DagNode)
    requires DistinctIds(nodes) && n in nodes && m in nodes && n.id == m.id
    ensures n == m
  {
    var i :| 0 <= i < |nodes| && nodes[i] == n;
    var j :| 0 <= j < |nodes| && nodes[j] == m;
    assert Ids(nodes)[i] == Ids(nodes)[j];
  }

  /** What one edge from `x` to `g` means for counters and successors. */
  lemma OneEdge(edges: seq<DagEdge>, x: string, g: string, y: string)
    requires edges == [DagEdge(x, g)]
    ensures forall done: set<string> :: CountIn(edges, y, done) == if y == g && x !in done then 1 else 0
    ensures Children(edges, y) == if y == x then [g] else []
    ensures PredsIn(edges, y, {}) <==> y != g
  {
    assert edges[..0] == [];
    assert Children(edges[..0], y) == [];
    forall done: set<string> ensures CountIn(edges, y, done) == if y == g && x !in done then 1 else 0 {
      assert CountIn(edges[..0], y, done) == 0;
    }
    assert edges[0] in edges;
  }

  lemma FreedByOne(edges: seq<DagEdge>, x: string, g: string, done: set<string>, y: string)
    requires edges == [DagEdge(x, g)] && x !in done
    ensures Freed(edges, done, Children(edges, y)) == if y == x then [g] else []
  {
    OneEdge(edges, x, g, y);
    OneEdge(edges, x, g, g);
    if y == x {
      assert [g][..0] == [] && multiset([g])[g] == 1;
      assert Freed(edges, done, [g][..0]) == [];
    }
  }

  lemma FirstOfThree(spec: DagSpecification, x: string, s: string, g: string, first: seq<string>)
    requires x != s && x != g && s != g
    requires spec.edges == [DagEdge(x, g)] && Keys(spec) == {x, s, g}
    requires first == [x, s] || first == [s, x]
    ensures ReadyQueue(spec, first)
  {
    forall y ensures y in first <==> y in Keys(spec) && PredsIn(spec.edges, y, {}) {
      OneEdge(spec.edges, x, g, y);
    }
  }

  /** What the queue loop pops on two sources, the first of which feeds a third node. */
  lemma KahnOfThree(spec: DagSpecification, x: string, s: string, g: string, first: seq<string>)
    requires x != s && x != g && s != g
    requires spec.edges == [DagEdge(x, g)] && Keys(spec) == {x, s, g}
    requires first == [x, s] || first == [s, x]
    ensures Kahn(spec, first) == first + [g]
  {
    var edges := spec.edges;
    FreedByOne(edges, x, g, Elems([]), x);
    FreedByOne(edges, x, g, Elems([]), s);
    FreedByOne(edges, x, g, Elems([s]), x);
    OneEdge(edges, x, g, s);
    OneEdge(edges, x, g, g);
    if first == [x, s] {
      KahnTwo(spec, x, s, [g], []);
    } else {
      KahnTwo(spec, s, x, [], [g]);
    }
    assert [g] + [] == [g] && [] + [g] == [g];
    KahnLast(spec, first, g);
  }

  /** Two pops that free `f0` and `f1`. */
  lemma KahnTwo(spec: DagSpecification, a: string, b: string, f0: seq<string>, f1: seq<string>)
    requires a != b && a in Keys(spec) && b in Keys(spec)
    requires Freed(spec.edges, Elems([]), Children(spec.edges, a)) == f0
    requires Freed(spec.edges, Elems([a]), Children(spec.edges, b)) == f1
    ensures Kahn(spec, [a, b]) == KahnFrom(spec, [a, b], f0 + f1)
  {
    assert [a] + [b] == [a, b] && [] + [a] == [a];
    KahnStep(spec, [], a, [b], f0);
    KahnStep(spec, [a], b, f0, f1);
  }

  lemma KahnLast(spec: DagSpecification, done: seq<string>, c: string)
    requires c !in done && c in Keys(spec) && Freed(spec.edges, Elems(done), Children(spec.edges, c)) == []
    ensures KahnFrom(spec, done, [c]) == done + [c]
  {
    KahnStep(spec, done, c, [], []);
    assert [c] + [] == [c];
  }

  /**
   A read feeding a reduction, beside an unconnected client shuffle on the reduction's key: the two orders of
   the first queue give different final stages, so the job's task ids depend on the hash map.
   */
  lemma ClientShuffleIsUnstable(x: DagNode, s: DagNode, g: DagNode, partitions: nat, job: Uuid)
    requires x.id != s.id && x.id != g.id && s.id != g.id && partitions > 0
    requires x.operator.Read? && g.operator.ReduceByKey? && ShuffledOn(s, g.operator.key)
    ensures var spec := DagSpecification([x, s, g], [DagEdge(x.id, g.id)], partitions);
            && ReadyQueue(spec, [x.id, s.id]) && OrderFrom(spec, [x.id, s.id]) == [x, s, g]
            && ReadyQueue(spec, [s.id, x.id]) && OrderFrom(spec, [s.id, x.id]) == [s, x, g]
            && !StableIds(spec, job)
  {
    var spec := DagSpecification([x, s, g], [DagEdge(x.id, g.id)], partitions);
    OrderOfThree(x, s, g, spec, x, s);
    OrderOfThree(x, s, g, spec, s, x);
    assert PossibleOrder(spec, [x, s, g]) && PossibleOrder(spec, [s, x, g]);
    PreshuffledThree(x, s, g);
    PreshuffledThree(s, x, g);
    DifferentStagesDifferentIds(spec, job, [x, s, g], [s, x, g]);
  }

  lemma PreshuffledThree(a: DagNode, b: DagNode, g: DagNode)
    requires g.operator.ReduceByKey? && !a.operator.ReduceByKey? && !b.operator.ReduceByKey?
    ensures Preshuffled([a, b, g]) == if ShuffledOn(b, g.operator.key) then 1 else 0
  {
    assert [a, b, g][..2] == [a, b] && [a, b][..1] == [a] && [a][..0] == [];
    assert Preshuffled([a]) == 0 && Preshuffled([a, b]) == 0;
  }

  lemma KeysOfThree(x: DagNode, s: DagNode, g: DagNode, spec: DagSpecification)
    requires x.id != s.id && x.id != g.id && s.id != g.id
    requires spec.nodes == [x, s, g] && spec.edges == [DagEdge(x.id, g.id)]
    ensures DistinctIds(spec.nodes) && Keys(spec) == {x.id, s.id, g.id}
  {
    assert Ids(spec.nodes) == [x.id, s.id, g.id];
    assert spec.edges[0] in spec.edges;
  }

  lemma OrderOfThree(x: DagNode, s: DagNode, g: DagNode, spec: DagSpecification, a: DagNode, b: DagNode)
    requires x.id != s.id && x.id != g.id && s.id != g.id
    requires spec.nodes == [x, s, g] && spec.edges == [DagEdge(x.id, g.id)]
    requires (a == x && b == s) || (a == s && b == x)
    ensures ReadyQueue(spec, [a.id, b.id]) && OrderFrom(spec, [a.id, b.id]) == [a, b, g]
  {
    KeysOfThree(x, s, g, spec);
    FirstOfThree(spec, x.id, s.id, g.id, [a.id, b.id]);
    KahnOfThree(spec, x.id, s.id, g.id, [a.id, b.id]);
    assert [a.id, b.id] + [g.id] == [a.id, b.id, g.id];
    AllPopped(spec, [a.id, b.id]);
    OrderOfPopped(spec, [a.id, b.id]);
    FindDistinct(spec.nodes, a);
    FindDistinct(spec.nodes, b);
    FindDistinct(spec.nodes, g);
    LookupThree(spec.nodes, a, b, g);
  }

  lemma AllPopped(spec: DagSpecification, first: seq<string>)
    requires ReadyQueue(spec, first) && forall y :: y in Keys(spec) ==> y in Kahn(spec, first)
    ensures StuckIds(spec, spec.nodes) == []
  {
    KahnPops(spec, first);
    forall y | y in Ids(spec.nodes) ensures !Blocked(spec, y) {
      assert y in Keys(spec);
    }
    NothingStuck(spec, spec.nodes);
  }

  lemma OrderOfPopped(spec: DagSpecification, first: seq<string>)
    requires StuckIds(spec, spec.nodes) == []
    ensures OrderFrom(spec, first) == Lookup(spec.nodes, Kahn(spec, first))
  {
    assert Kahn(spec, first) + [] == Kahn(spec, first);
  }

  lemma LookupLast(nodes: seq<DagNode>, ids: seq<string>, n: DagNode)
    requires Find(nodes, n.id) == Some(n)
    ensures Lookup(nodes, ids + [n.id]) == Lookup(nodes, ids) + [n]
  {
    assert (ids + [n.id])[..|ids|] == ids;
  }

  lemma LookupTwo(nodes: seq<DagNode>, a: DagNode, b: DagNode)
    requires Find(nodes, a.id) == Some(a) && Find(nodes, b.id) == Some(b)
    ensures Lookup(nodes, [a.id, b.id]) == [a, b]
  {
    LookupLast(nodes, [], a);
    LookupLast(nodes, [a.id], b);
    assert [] + [a.id] == [a.id] && [a.id] + [b.id] == [a.id, b.id];
    assert [] + [a] == [a] && [a] + [b] == [a, b];
  }

  lemma LookupThree(nodes: seq<DagNode>, a: DagNode, b: DagNode, c: DagNode)
    requires Find(nodes, a.id) == Some(a) && Find(nodes, b.id) == Some(b) && Find(nodes, c.id) == Some(c)
    ensures Lookup(nodes, [a.id, b.id, c.id]) == [a, b, c]
  {
    LookupTwo(nodes, a, b);
    LookupLast(nodes, [a.id, b.id], c);
    assert [a.id, b.id] + [c.id] == [a.id, b.id, c.id] && [a, b] + [c] == [a, b, c];
  }
}
