/** Whole jobs: planning, pipeline, spill files and operators together. */
module Jobs {
  import opened Prelude
  import opened Dag
  import opened Planner
  import opened Pipeline
  import opened Execution
  import opened Values
  import opened Buckets
  import opened Transforms
  import opened Operators
  import S = Shuffle
  import R = Reduce
  import In = Read
  import G = Grouping
  import Agg = Aggregates
  import Res = Residency
  import C = Completion
  import opened Chains

  // ----- the engine's operators with spill files

  /**
   A task run by the engine, at every memory limit and with every choice of spill paths: it completes exactly when the
   job's sink evaluates and its run is untangled, and a task that completes outputs the value of the sink.
   */
  lemma EngineTaskMeaning(e: Res.Settings, ctx: Context, spec: DagSpecification, empty: Partition, job: Uuid,
                          tasks: seq<Task>, p: nat, sink: string)
    requires WellFormed(spec) && NoFanOut(spec.edges) && SingleSink(spec, sink) && CleanIds(spec) && C.ReadsUnfed(spec)
    requires empty.records == [] && PossibleTasks(spec, job, tasks) && p < |tasks|
    ensures var r := Res.StoredRun(e, ExecOf(ctx), empty, StagesOf(tasks[p]), FinalKey(tasks[p]));
            var value := Eval(spec, ExecOf(ctx), empty, sink);
            && (r.Ok? <==> value.Ok? && Res.Untangled(e, ExecOf(ctx), empty, StagesOf(tasks[p])))
            && (r.Ok? ==> r == value)
  {
    EngineShuffles(ctx, empty);
    EngineIsEngineLike(ctx);
    EngineEmptyShufflesFit(e, ctx, empty);
    C.TaskCompletesIff(e, spec, ExecOf(ctx), empty, job, tasks, p, sink);
  }

  /** Two reads that do not fit, in front of a join, with one spill path for both: the task fails. */
  lemma LargeReadsBreakJoin(e: Res.Settings, ctx: Context, empty: Partition, a: Stage, b: Stage, c: Stage,
                            left: seq<Value>, right: seq<Value>)
    requires a.id != b.id && c.id != a.id && c.id != b.id && a.parents == [] && b.parents == [] &&
             c.parents == [a.id, b.id]
    requires a.operator.Read? && b.operator.Read? && c.operator.Join? && e.paths(a.id, 0) == e.paths(b.id, 0)
    requires In.ReadPartition(ctx.tx, a.operator.format, ctx.files(a.operator.uri), AtLeastOne(ctx.total),
                              ctx.partition) == Ok(left)
    requires In.ReadPartition(ctx.tx, b.operator.format, ctx.files(b.operator.uri), AtLeastOne(ctx.total),
                              ctx.partition) == Ok(right)
    requires !Res.Fits(e, Partition(ctx.partition, left)) && !Res.Fits(e, Partition(ctx.partition, right))
    ensures Res.StoredRun(e, ExecOf(ctx), empty, [a, b, c], c.id).Err?
  {
    EngineIsEngineLike(ctx);
    Res.SharedPathFails(e, ExecOf(ctx), empty, a, b, c, Partition(ctx.partition, left),
                        Partition(ctx.partition, right));
  }

  // ----- what tasks output

  type Outcome = Result<seq<Value>, string>

  /** The memory limit and the spill paths each task is run with. */
  type Workers = Task -> Res.Settings

  /** What a task's operators take from their surroundings. */
  function InTask(ctx: Context, task: Task): Context {
    ctx.(total := task.totalPartitions, partition := task.partition)
  }

  ghost function StoredOutput(w: Workers, ctx: Context, empty: Partition, task: Task): Result<seq<Partition>, string> {
    Res.StoredRun(w(task), ExecOf(InTask(ctx, task)), empty, StagesOf(task), FinalKey(task))
  }

  /** What a materialised task outputs when a worker runs it. */
  ghost function TaskRecords(w: Workers, ctx: Context, empty: Partition, task: Task): Result<seq<Value>, string> {
    match StoredOutput(w, ctx, empty, task)
    case Err(e) => Err(e)
    case Ok(parts) => Ok(S.Records(parts))
  }

  lemma TaskPartition(spec: DagSpecification, job: Uuid, tasks: seq<Task>, p: nat)
    requires PossibleTasks(spec, job, tasks) && p < |tasks|
    ensures |tasks| == spec.partitions && tasks[p].partition == p && tasks[p].totalPartitions == spec.partitions
  {
    var order :| TasksFrom(spec, job, order, tasks);
  }

  /** What the tasks of a job output. */
  ghost function Outcomes(w: Workers, ctx: Context, empty: Partition, tasks: seq<Task>): (r: seq<Outcome>)
    ensures |r| == |tasks| && forall p :: 0 <= p < |r| ==> r[p] == TaskRecords(w, ctx, empty, tasks[p])
  {
    seq(|tasks|, p requires 0 <= p < |tasks| => TaskRecords(w, ctx, empty, tasks[p]))
  }

  ghost predicate AllOk(outs: seq<Outcome>) {
    forall p :: 0 <= p < |outs| ==> outs[p].Ok?
  }

  /** The records of each outcome. */
  ghost function OkRecords(outs: seq<Outcome>): nat -> multiset<Value> {
    (p: nat) => if p < |outs| && outs[p].Ok? then multiset(outs[p].value) else multiset{}
  }

  /** The single partition of a task, or its error. */
  function AsPartition(p: nat, r: Result<seq<Value>, string>): Result<seq<Partition>, string> {
    match r
    case Err(e) => Err(e)
    case Ok(recs) => Ok([Partition(p, recs)])
  }

  lemma RecordsOfOne(p: nat, recs: seq<Value>)
    ensures S.Records([Partition(p, recs)]) == recs
  {
    var parts := [Partition(p, recs)];
    assert parts[..0] == [];
    assert S.Records(parts) == S.Records([]) + recs;
  }

  lemma ApplyOne(tx: TextFns, op: OperatorType, p: nat, recs: seq<Value>)
    requires RecordWise(op)
    ensures ApplyAll(tx, op, [Partition(p, recs)]) == AsPartition(p, Apply(tx, op, recs))
  {
    var parts := [Partition(p, recs)];
    assert parts[..0] == [];
    if Builds(tx, op) {
      assert ApplyAll(tx, op, parts[..0]) == Ok([]);
      if Apply(tx, op, recs).Ok? {
        assert [] + [Partition(p, Apply(tx, op, recs).value)] == [Partition(p, Apply(tx, op, recs).value)];
      }
    }
  }

  /** A task that produced one partition with the outcome `out`. */
  lemma TaskOutcome(c: ChainJob, w: Workers, ctx: Context, empty: Partition, n: nat, job: Uuid, tasks: seq<Task>,
                    p: nat, out: Result<seq<Value>, string>)
    requires empty.records == []
    requires ValidChain(c) && Slim(c) && PossibleTasks(ChainSpec(c, n), job, tasks) && p < |tasks|
    requires ChainValue(c, ctx.(total := n, partition := p), empty, |c.ops| - 1) == AsPartition(p, out)
    ensures SameOutcome(TaskRecords(w, ctx, empty, tasks[p]), out)
  {
    TaskPartition(ChainSpec(c, n), job, tasks, p);
    ChainRun(w(tasks[p]), c, ctx.(total := n, partition := p), empty, n, job, tasks, p);
    if out.Ok? {
      RecordsOfOne(p, out.value);
    }
  }

  // ----- a read and record-wise operators

  /** The source of a job and the record-wise operators behind it. */
  datatype Pipe = Pipe(uri: string, format: string, ops: seq<OperatorType>)

  function PipeOps(s: Pipe): seq<OperatorType> {
    [Read(s.uri, s.format)] + s.ops
  }

  /** The output of task `p` of `n`. */
  function PipeOutput(s: Pipe, ctx: Context, n: nat, p: nat): Result<seq<Value>, string>
    requires n > 0 && ChainOps(s.ops)
  {
    In.TaskOutput(ctx.tx, s.format, ctx.files(s.uri), s.ops, n, p)
  }

  /** The chain starts with the pipe. */
  ghost predicate StartsWith(c: ChainJob, s: Pipe) {
    |c.ids| == |c.ops| && PipeOps(s) <= c.ops && ChainOps(s.ops)
  }

  function PipePrefix(s: Pipe, i: nat): Pipe
    requires i <= |s.ops|
  {
    s.(ops := s.ops[..i])
  }

  /** One more operator, on partition level and on record level. */
  lemma PipeStep(c: ChainJob, s: Pipe, ctx: Context, i: nat)
    requires StartsWith(c, s) && 0 < i <= |s.ops| && ctx.total > 0
    ensures var before := PipeOutput(PipePrefix(s, i - 1), ctx, ctx.total, ctx.partition);
            var after := PipeOutput(PipePrefix(s, i), ctx, ctx.total, ctx.partition);
            AsPartition(ctx.partition, after) ==
            if before.Err? then AsPartition(ctx.partition, before)
            else Execute(ctx, c.ids[i], c.ops[i], [Partition(ctx.partition, before.value)])
  {
    assert s.ops[..i][..i - 1] == s.ops[..i - 1];
    assert c.ops[i] == PipeOps(s)[i] == s.ops[i - 1];
    var before := PipeOutput(PipePrefix(s, i - 1), ctx, ctx.total, ctx.partition);
    if before.Ok? {
      ApplyOne(ctx.tx, s.ops[i - 1], ctx.partition, before.value);
    }
  }

  /** The value of node `i` is the read followed by the first `i` operators. */
  lemma {:induction false} PipeValue(c: ChainJob, s: Pipe, ctx: Context, empty: Partition, i: nat)
    requires StartsWith(c, s) && i <= |s.ops| && ctx.total > 0
    ensures ChainValue(c, ctx, empty, i) ==
            AsPartition(ctx.partition, PipeOutput(PipePrefix(s, i), ctx, ctx.total, ctx.partition))
  {
    if i == 0 {
      assert s.ops[..0] == [] && c.ops[0] == PipeOps(s)[0];
    } else {
      PipeValue(c, s, ctx, empty, i - 1);
      PipeStep(c, s, ctx, i);
    }
  }

  lemma PipeEnd(c: ChainJob, s: Pipe, ctx: Context, empty: Partition)
    requires StartsWith(c, s) && ctx.total > 0
    ensures ChainValue(c, ctx, empty, |s.ops|) ==
            AsPartition(ctx.partition, PipeOutput(s, ctx, ctx.total, ctx.partition))
  {
    PipeValue(c, s, ctx, empty, |s.ops|);
    assert s.ops[..|s.ops|] == s.ops;
  }

  ghost predicate ValidPipe(ids: seq<string>, s: Pipe) {
    && |ids| == |s.ops| + 1 && NoDup(ids) && ChainOps(s.ops)
    && forall i :: 0 <= i < |ids| ==> !HasArrow(ids[i])
  }

  lemma PipeIsValid(ids: seq<string>, s: Pipe)
    requires ValidPipe(ids, s)
    ensures ValidChain(ChainJob(ids, PipeOps(s))) && Slim(ChainJob(ids, PipeOps(s)))
    ensures StartsWith(ChainJob(ids, PipeOps(s)), s)
  {
    assert forall j :: 0 <= j < |PipeOps(s)| ==> !PipeOps(s)[j].ReduceByKey?;
  }

  /** A task of a read-and-transform job outputs its partition, read and transformed. */
  lemma PipeTask(ids: seq<string>, s: Pipe, w: Workers, ctx: Context, empty: Partition, n: nat, job: Uuid,
                 tasks: seq<Task>, p: nat)
    requires empty.records == []
    requires ValidPipe(ids, s) && n > 0
    requires PossibleTasks(ChainSpec(ChainJob(ids, PipeOps(s)), n), job, tasks) && p < |tasks|
    ensures SameOutcome(TaskRecords(w, ctx, empty, tasks[p]), PipeOutput(s, ctx, n, p))
  {
    var c := ChainJob(ids, PipeOps(s));
    PipeIsValid(ids, s);
    PipeEnd(c, s, ctx.(total := n, partition := p), empty);
    TaskOutcome(c, w, ctx, empty, n, job, tasks, p, PipeOutput(s, ctx, n, p));
  }

  /** Each outcome is that of its partition, read and transformed. */
  ghost predicate PipeOutcomes(outs: seq<Outcome>, tx: TextFns, format: string, file: Option<string>,
                               ops: seq<OperatorType>)
    requires ChainOps(ops)
  {
    forall p :: 0 <= p < |outs| ==> SameOutcome(outs[p], In.TaskOutput(tx, format, file, ops, |outs|, p))
  }

  lemma PipeTasks(ids: seq<string>, s: Pipe, w: Workers, ctx: Context, empty: Partition, n: nat, job: Uuid,
                  tasks: seq<Task>)
    requires empty.records == []
    requires ValidPipe(ids, s) && PossibleTasks(ChainSpec(ChainJob(ids, PipeOps(s)), n), job, tasks) && |tasks| == n > 0
    ensures PipeOutcomes(Outcomes(w, ctx, empty, tasks), ctx.tx, s.format, ctx.files(s.uri), s.ops)
  {
    forall p | 0 <= p < n ensures SameOutcome(Outcomes(w, ctx, empty, tasks)[p], PipeOutput(s, ctx, n, p)) {
      PipeTask(ids, s, w, ctx, empty, n, job, tasks, p);
    }
  }

  lemma OutcomesSucceed(outs: seq<Outcome>, tx: TextFns, format: string, file: Option<string>, ops: seq<OperatorType>)
    requires ChainOps(ops) && |outs| > 0 && PipeOutcomes(outs, tx, format, file, ops)
    ensures AllOk(outs) <==> In.TaskOutput(tx, format, file, ops, 1, 0).Ok?
  {
    In.TasksSucceedTogether(tx, format, file, ops, |outs|);
    assert forall p :: 0 <= p < |outs| ==> (outs[p].Ok? <==> In.TaskOutput(tx, format, file, ops, |outs|, p).Ok?);
  }

  lemma OutcomeAt(outs: seq<Outcome>, tx: TextFns, format: string, file: Option<string>, ops: seq<OperatorType>, p: nat)
    requires ChainOps(ops) && p < |outs| && SameOutcome(outs[p], In.TaskOutput(tx, format, file, ops, |outs|, p))
    ensures OkRecords(outs)(p) == In.OutputPerTask(tx, format, file, ops, |outs|)(p)
  {
  }

  lemma OutcomesSum(outs: seq<Outcome>, tx: TextFns, format: string, file: Option<string>, ops: seq<OperatorType>)
    requires ChainOps(ops) && |outs| > 0 && PipeOutcomes(outs, tx, format, file, ops)
    requires In.TaskOutput(tx, format, file, ops, 1, 0).Ok?
    ensures SumOver(|outs|, OkRecords(outs)) == multiset(In.TaskOutput(tx, format, file, ops, 1, 0).value)
  {
    var g := In.OutputPerTask(tx, format, file, ops, |outs|);
    In.PartitionCountInvariance(tx, format, file, ops, |outs|);
    forall p: nat | p < |outs| ensures OkRecords(outs)(p) == g(p) {
      OutcomeAt(outs, tx, format, file, ops, p);
    }
    SumExt(|outs|, OkRecords(outs), g);
  }

  /**
   A read-and-transform job computes the same records however many partitions it is submitted with: planning, edge
   labels, injection, the pipeline interpreter and the operators included.
   */
  lemma PipeJobInvariance(ids: seq<string>, s: Pipe, w: Workers, ctx: Context, empty: Partition, job: Uuid, job1: Uuid,
                          tasks: seq<Task>, single: seq<Task>)
    requires empty.records == []
    requires ValidPipe(ids, s) && |tasks| > 0 && |single| == 1
    requires PossibleTasks(ChainSpec(ChainJob(ids, PipeOps(s)), |tasks|), job, tasks)
    requires PossibleTasks(ChainSpec(ChainJob(ids, PipeOps(s)), 1), job1, single)
    ensures AllOk(Outcomes(w, ctx, empty, tasks)) <==> TaskRecords(w, ctx, empty, single[0]).Ok?
    ensures TaskRecords(w, ctx, empty, single[0]).Ok? ==>
              SumOver(|tasks|, OkRecords(Outcomes(w, ctx, empty, tasks))) ==
                multiset(TaskRecords(w, ctx, empty, single[0]).value)
  {
    var outs, tx, file := Outcomes(w, ctx, empty, tasks), ctx.tx, ctx.files(s.uri);
    PipeTasks(ids, s, w, ctx, empty, |tasks|, job, tasks);
    PipeTask(ids, s, w, ctx, empty, 1, job1, single, 0);
    OutcomesSucceed(outs, tx, s.format, file, s.ops);
    if In.TaskOutput(tx, s.format, file, s.ops, 1, 0).Ok? {
      OutcomesSum(outs, tx, s.format, file, s.ops);
    }
  }

  // ----- reading, transforming and reducing by key

  /** The chain of a pipe followed by a keyed reduction. */
  function GroupedChain(ids: seq<string>, s: Pipe, key: string, raw: string): ChainJob {
    ChainJob(ids, PipeOps(s) + [ReduceByKey(key, raw)])
  }

  /** Node ids as for a pipe, none of them the id of the injected shuffle. */
  ghost predicate ValidGrouped(ids: seq<string>, s: Pipe) {
    && |ids| == |s.ops| + 2 && NoDup(ids) && ChainOps(s.ops)
    && (forall i :: 0 <= i < |ids| ==> !HasArrow(ids[i]))
    && ShuffleId(ids[|ids| - 1]) !in ids
  }

  lemma GroupedIsValid(ids: seq<string>, s: Pipe, key: string, raw: string)
    requires ValidGrouped(ids, s)
    ensures var c := GroupedChain(ids, s, key, raw);
            ValidChain(c) && Slim(c) && StartsWith(c, s)
  {
    var ops := GroupedChain(ids, s, key, raw).ops;
    assert forall j :: 0 <= j < |ops| && ops[j].ReduceByKey? ==> j == |ids| - 1;
    assert forall i :: 0 <= i < |ids| ==> ids[i] in ids;
  }

  /** What one task makes of its records. */
  function Grouped(ctx: Context, id: string, key: string, raw: string, recs: seq<Value>): Outcome {
    match R.ParseReducer(raw)
    case None => Err("unsupported reducer")
    case Some(kind) =>
      if R.AllKeyed(key, recs) then Ok(ctx.hashOrder(id, R.GroupRecords(ctx.rt, kind, key, recs)))
      else Err("missing key field")
  }

  function GroupedOutcome(ctx: Context, id: string, key: string, raw: string, out: Outcome): Outcome {
    match out
    case Err(e) => Err(e)
    case Ok(recs) => Grouped(ctx, id, key, raw, recs)
  }

  lemma ReduceOne(ctx: Context, id: string, key: string, raw: string, p: nat, recs: seq<Value>)
    ensures Execute(ctx, id, ReduceByKey(key, raw), [Partition(p, recs)]) ==
            AsPartition(p, Grouped(ctx, id, key, raw, recs))
  {
    RecordsOfOne(p, recs);
  }

  lemma GroupedEnd(ids: seq<string>, s: Pipe, key: string, raw: string, ctx: Context, empty: Partition)
    requires ValidGrouped(ids, s) && ctx.total > 0
    ensures var c := GroupedChain(ids, s, key, raw);
            ChainValue(c, ctx, empty, |c.ops| - 1) ==
            AsPartition(ctx.partition,
                        GroupedOutcome(ctx, ids[|ids| - 1], key, raw, PipeOutput(s, ctx, ctx.total, ctx.partition)))
  {
    var c, id := GroupedChain(ids, s, key, raw), ids[|ids| - 1];
    GroupedIsValid(ids, s, key, raw);
    PipeEnd(c, s, ctx, empty);
    assert c.ops[|s.ops| + 1] == ReduceByKey(key, raw);
    var out := PipeOutput(s, ctx, ctx.total, ctx.partition);
    if out.Ok? {
      ReduceOne(ctx, id, key, raw, ctx.partition, out.value);
    }
  }

  /** A task of a grouped job reduces its own partition: no record of another task reaches it. */
  lemma GroupedTask(ids: seq<string>, s: Pipe, key: string, raw: string, w: Workers, ctx: Context, empty: Partition,
                    n: nat, job: Uuid, tasks: seq<Task>, p: nat)
    requires empty.records == []
    requires ValidGrouped(ids, s) && n > 0
    requires PossibleTasks(ChainSpec(GroupedChain(ids, s, key, raw), n), job, tasks) && p < |tasks|
    ensures SameOutcome(TaskRecords(w, ctx, empty, tasks[p]),
                        GroupedOutcome(ctx, ids[|ids| - 1], key, raw, PipeOutput(s, ctx, n, p)))
  {
    GroupedIsValid(ids, s, key, raw);
    GroupedEnd(ids, s, key, raw, ctx.(total := n, partition := p), empty);
    TaskOutcome(GroupedChain(ids, s, key, raw), w, ctx, empty, n, job, tasks, p,
                GroupedOutcome(ctx, ids[|ids| - 1], key, raw, PipeOutput(s, ctx, n, p)));
  }

  /** Each outcome is the reduction of its task's records. */
  ghost predicate GroupedOutcomes(outs: seq<Outcome>, ctx: Context, id: string, key: string, raw: string,
                                  format: string, file: Option<string>, ops: seq<OperatorType>)
    requires ChainOps(ops)
  {
    forall p :: 0 <= p < |outs| ==>
      SameOutcome(outs[p], GroupedOutcome(ctx, id, key, raw, In.TaskOutput(ctx.tx, format, file, ops, |outs|, p)))
  }

  lemma GroupedTasks(ids: seq<string>, s: Pipe, key: string, raw: string, w: Workers, ctx: Context, empty: Partition,
                     n: nat, job: Uuid, tasks: seq<Task>)
    requires empty.records == []
    requires ValidGrouped(ids, s) && |tasks| == n > 0
    requires PossibleTasks(ChainSpec(GroupedChain(ids, s, key, raw), n), job, tasks)
    ensures GroupedOutcomes(Outcomes(w, ctx, empty, tasks), ctx, ids[|ids| - 1], key, raw, s.format, ctx.files(s.uri),
                            s.ops)
  {
    forall p | 0 <= p < n
      ensures SameOutcome(Outcomes(w, ctx, empty, tasks)[p],
                          GroupedOutcome(ctx, ids[|ids| - 1], key, raw, PipeOutput(s, ctx, n, p)))
    {
      GroupedTask(ids, s, key, raw, w, ctx, empty, n, job, tasks, p);
    }
  }

  /** A record is in the whole output exactly when it is in some task's. */
  lemma InSomeTask(tx: TextFns, format: string, file: Option<string>, ops: seq<OperatorType>, n: nat, r: Value)
    requires n > 0 && ChainOps(ops) && In.TaskOutput(tx, format, file, ops, 1, 0).Ok?
    ensures r in In.TaskOutput(tx, format, file, ops, 1, 0).value <==>
            exists p :: 0 <= p < n && r in G.OutputOf(tx, format, file, ops, n, p)
  {
    var whole, g := In.TaskOutput(tx, format, file, ops, 1, 0).value, In.OutputPerTask(tx, format, file, ops, n);
    In.PartitionCountInvariance(tx, format, file, ops, n);
    SumMember(n, g, r);
    assert r in whole <==> r in multiset(whole);
    assert forall p :: 0 <= p < n ==> (r in g(p) <==> r in G.OutputOf(tx, format, file, ops, n, p));
  }

  /** Every record of the whole input has a key exactly when every record of every task has. */
  lemma KeyedTogether(key: string, tx: TextFns, format: string, file: Option<string>, ops: seq<OperatorType>, n: nat)
    requires n > 0 && ChainOps(ops) && In.TaskOutput(tx, format, file, ops, 1, 0).Ok?
    ensures R.AllKeyed(key, In.TaskOutput(tx, format, file, ops, 1, 0).value) <==>
            forall p :: 0 <= p < n ==> R.AllKeyed(key, G.OutputOf(tx, format, file, ops, n, p))
  {
    var whole := In.TaskOutput(tx, format, file, ops, 1, 0).value;
    forall r ensures r in whole <==> exists p :: 0 <= p < n && r in G.OutputOf(tx, format, file, ops, n, p) {
      InSomeTask(tx, format, file, ops, n, r);
    }
  }

  /** All tasks of a grouped job succeed exactly when its single-partition run does. */
  lemma GroupedSucceed(outs: seq<Outcome>, ctx: Context, id: string, key: string, raw: string, format: string,
                       file: Option<string>, ops: seq<OperatorType>)
    requires ChainOps(ops) && |outs| > 0 && GroupedOutcomes(outs, ctx, id, key, raw, format, file, ops)
    ensures AllOk(outs) <==> GroupedOutcome(ctx, id, key, raw, In.TaskOutput(ctx.tx, format, file, ops, 1, 0)).Ok?
  {
    var n, tx := |outs|, ctx.tx;
    In.TasksSucceedTogether(tx, format, file, ops, n);
    if In.TaskOutput(tx, format, file, ops, 1, 0).Ok? {
      KeyedTogether(key, tx, format, file, ops, n);
      assert forall p :: 0 <= p < n ==>
          (outs[p].Ok? <==> R.ParseReducer(raw).Some? && R.AllKeyed(key, G.OutputOf(tx, format, file, ops, n, p)));
      assert n > 0 && (outs[0].Ok? ==> R.ParseReducer(raw).Some?);
    } else {
      var p :| 0 <= p < n && In.TaskOutput(tx, format, file, ops, n, p).Err?;
      assert outs[p].Err?;
    }
  }

  lemma OneGrouped(ctx: Context, id: string, key: string, raw: string, o: Outcome, out: Outcome)
    requires OrdersGroups(ctx) && o.Ok? && SameOutcome(o, GroupedOutcome(ctx, id, key, raw, out))
    ensures out.Ok? && R.ParseReducer(raw).Some?
    ensures multiset(o.value) == multiset(R.GroupRecords(ctx.rt, R.ParseReducer(raw).value, key, out.value))
  {
  }

  lemma GroupedAt(outs: seq<Outcome>, ctx: Context, id: string, key: string, raw: string, format: string,
                  file: Option<string>, ops: seq<OperatorType>, p: nat)
    requires ChainOps(ops) && p < |outs| && OrdersGroups(ctx) && outs[p].Ok?
    requires SameOutcome(outs[p],
                         GroupedOutcome(ctx, id, key, raw, In.TaskOutput(ctx.tx, format, file, ops, |outs|, p)))
    ensures R.ParseReducer(raw).Some?
    ensures OkRecords(outs)(p) ==
            G.ReducedPerTask(ctx.rt, R.ParseReducer(raw).value, key, ctx.tx, format, file, ops, |outs|)(p)
  {
    OneGrouped(ctx, id, key, raw, outs[p], In.TaskOutput(ctx.tx, format, file, ops, |outs|, p));
  }

  lemma GroupedSum(outs: seq<Outcome>, ctx: Context, id: string, key: string, raw: string, format: string,
                   file: Option<string>, ops: seq<OperatorType>)
    requires ChainOps(ops) && |outs| > 0 && GroupedOutcomes(outs, ctx, id, key, raw, format, file, ops)
    requires OrdersGroups(ctx) && AllOk(outs) && R.ParseReducer(raw).Some?
    ensures SumOver(|outs|, OkRecords(outs)) ==
            SumOver(|outs|, G.ReducedPerTask(ctx.rt, R.ParseReducer(raw).value, key, ctx.tx, format, file, ops, |outs|))
  {
    var g := G.ReducedPerTask(ctx.rt, R.ParseReducer(raw).value, key, ctx.tx, format, file, ops, |outs|);
    forall p: nat | p < |outs| ensures OkRecords(outs)(p) == g(p) {
      GroupedAt(outs, ctx, id, key, raw, format, file, ops, p);
    }
    SumExt(|outs|, OkRecords(outs), g);
  }

  lemma GroupedRecordsIff(outs: seq<Outcome>, one: Outcome, ctx: Context, id: string, key: string, raw: string,
                          format: string, file: Option<string>, ops: seq<OperatorType>)
    requires ChainOps(ops) && |outs| > 0 && GroupedOutcomes(outs, ctx, id, key, raw, format, file, ops)
    requires OrdersGroups(ctx) && AllOk(outs) && one.Ok?
    requires SameOutcome(one, GroupedOutcome(ctx, id, key, raw, In.TaskOutput(ctx.tx, format, file, ops, 1, 0)))
    ensures SumOver(|outs|, OkRecords(outs)) == multiset(one.value) <==>
            G.TasksApart(key, ctx.tx, format, file, ops, |outs|)
  {
    OneGrouped(ctx, id, key, raw, one, In.TaskOutput(ctx.tx, format, file, ops, 1, 0));
    GroupedSum(outs, ctx, id, key, raw, format, file, ops);
    G.LocalGroupingIff(ctx.rt, R.ParseReducer(raw).value, key, ctx.tx, format, file, ops, |outs|);
  }

  /**
   A job that reads, transforms and reduces by key, from planning to output: all tasks succeed exactly when the
   single-partition job does, and then they output its records exactly when no key value occurs in two tasks.
   */
  lemma GroupedJobIff(ids: seq<string>, s: Pipe, key: string, raw: string, w: Workers, ctx: Context, empty: Partition,
                      job: Uuid, job1: Uuid, tasks: seq<Task>, single: seq<Task>)
    requires empty.records == []
    requires ValidGrouped(ids, s) && |tasks| > 0 && |single| == 1 && OrdersGroups(ctx)
    requires PossibleTasks(ChainSpec(GroupedChain(ids, s, key, raw), |tasks|), job, tasks)
    requires PossibleTasks(ChainSpec(GroupedChain(ids, s, key, raw), 1), job1, single)
    ensures AllOk(Outcomes(w, ctx, empty, tasks)) <==> TaskRecords(w, ctx, empty, single[0]).Ok?
    ensures TaskRecords(w, ctx, empty, single[0]).Ok? ==>
              (SumOver(|tasks|, OkRecords(Outcomes(w, ctx, empty, tasks))) ==
               multiset(TaskRecords(w, ctx, empty, single[0]).value) <==>
               G.TasksApart(key, ctx.tx, s.format, ctx.files(s.uri), s.ops, |tasks|))
  {
    var outs, id, file := Outcomes(w, ctx, empty, tasks), ids[|ids| - 1], ctx.files(s.uri);
    GroupedTasks(ids, s, key, raw, w, ctx, empty, |tasks|, job, tasks);
    GroupedTask(ids, s, key, raw, w, ctx, empty, 1, job1, single, 0);
    GroupedSucceed(outs, ctx, id, key, raw, s.format, file, s.ops);
    if TaskRecords(w, ctx, empty, single[0]).Ok? {
      GroupedRecordsIff(outs, TaskRecords(w, ctx, empty, single[0]), ctx, id, key, raw, s.format, file, s.ops);
    }
  }

  // ----- partial aggregates of whole jobs

  /** The records of successful outcomes. */
  ghost function RecordLists(outs: seq<Outcome>): (r: seq<seq<Value>>)
    requires AllOk(outs)
    ensures |r| == |outs| && forall p :: 0 <= p < |r| ==> r[p] == outs[p].value
  {
    seq(|outs|, p requires 0 <= p < |outs| => outs[p].value)
  }

  lemma GroupedReductions(outs: seq<Outcome>, ctx: Context, id: string, key: string, raw: string, format: string,
                          file: Option<string>, ops: seq<OperatorType>)
    requires ChainOps(ops) && |outs| > 0 && GroupedOutcomes(outs, ctx, id, key, raw, format, file, ops)
    requires OrdersGroups(ctx) && AllOk(outs) && R.ParseReducer(raw).Some?
    ensures Agg.TaskReductions(ctx.rt, ctx.tx, format, file, ops, R.ParseReducer(raw).value, key, RecordLists(outs))
  {
    forall p | 0 <= p < |outs|
      ensures var recs := In.TaskOutput(ctx.tx, format, file, ops, |outs|, p);
              && recs.Ok?
              && multiset(RecordLists(outs)[p]) ==
                 multiset(R.GroupRecords(ctx.rt, R.ParseReducer(raw).value, key, recs.value))
    {
      OneGrouped(ctx, id, key, raw, outs[p], In.TaskOutput(ctx.tx, format, file, ops, |outs|, p));
    }
  }

  lemma SingleList(one: seq<Outcome>)
    requires |one| == 1 && AllOk(one)
    ensures RecordLists(one) == [one[0].value]
  {
  }

  lemma OutcomesAddUp(outs: seq<Outcome>, one: seq<Outcome>, ctx: Context, id: string, key: string, raw: string,
                      format: string, file: Option<string>, ops: seq<OperatorType>, k: string)
    requires ChainOps(ops) && |outs| > 0 && GroupedOutcomes(outs, ctx, id, key, raw, format, file, ops)
    requires |one| == 1 && GroupedOutcomes(one, ctx, id, key, raw, format, file, ops)
    requires OrdersGroups(ctx) && AllOk(outs) && AllOk(one) && Agg.Exact(ctx.rt)
    requires R.ParseReducer(raw).Some? && Agg.Additive(R.ParseReducer(raw).value)
    ensures var name := Agg.OutputField(R.ParseReducer(raw).value);
            Agg.SumReal(|outs|, Agg.ReportedPerTask(ctx.rt, key, k, name, RecordLists(outs))) ==
            Agg.Weight(one[0].value, Agg.Reported(ctx.rt, key, k, name))
  {
    GroupedReductions(outs, ctx, id, key, raw, format, file, ops);
    GroupedReductions(one, ctx, id, key, raw, format, file, ops);
    SingleList(one);
    Agg.PartialAggregatesAddUp(ctx.rt, ctx.tx, format, file, ops, R.ParseReducer(raw).value, key, k, RecordLists(outs),
                               one[0].value);
  }

  /**
   The counts and exact sums that the tasks of a job report for a key add up to what its single-partition run reports.
   */
  lemma JobAggregatesAddUp(ids: seq<string>, s: Pipe, key: string, raw: string, w: Workers, ctx: Context,
                           empty: Partition, job: Uuid, job1: Uuid, tasks: seq<Task>, single: seq<Task>, k: string)
    requires empty.records == []
    requires ValidGrouped(ids, s) && |tasks| > 0 && |single| == 1 && OrdersGroups(ctx) && Agg.Exact(ctx.rt)
    requires R.ParseReducer(raw).Some? && Agg.Additive(R.ParseReducer(raw).value)
    requires PossibleTasks(ChainSpec(GroupedChain(ids, s, key, raw), |tasks|), job, tasks)
    requires PossibleTasks(ChainSpec(GroupedChain(ids, s, key, raw), 1), job1, single)
    requires TaskRecords(w, ctx, empty, single[0]).Ok?
    ensures AllOk(Outcomes(w, ctx, empty, tasks))
    ensures var name := Agg.OutputField(R.ParseReducer(raw).value);
            Agg.SumReal(|tasks|, Agg.ReportedPerTask(ctx.rt, key, k, name,
                                                     RecordLists(Outcomes(w, ctx, empty, tasks)))) ==
            Agg.Weight(TaskRecords(w, ctx, empty, single[0]).value, Agg.Reported(ctx.rt, key, k, name))
  {
    var id, file := ids[|ids| - 1], ctx.files(s.uri);
    var outs, one := Outcomes(w, ctx, empty, tasks), Outcomes(w, ctx, empty, single);
    GroupedTasks(ids, s, key, raw, w, ctx, empty, |tasks|, job, tasks);
    GroupedTasks(ids, s, key, raw, w, ctx, empty, 1, job1, single);
    GroupedSucceed(outs, ctx, id, key, raw, s.format, file, s.ops);
    GroupedSucceed(one, ctx, id, key, raw, s.format, file, s.ops);
    assert AllOk(one);
    OutcomesAddUp(outs, one, ctx, id, key, raw, s.format, file, s.ops, k);
  }
}
