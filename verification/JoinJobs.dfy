/** Whole join jobs: two read-and-transform pipes in front of a join, task by task against one big run. */
module JoinJobs {
  import opened Prelude
  import opened Dag
  import opened Ordering
  import opened Planner
  import opened Pipeline
  import opened Execution
  import opened Values
  import opened Platform
  import opened Buckets
  import opened Transforms
  import opened Operators
  import opened Chains
  import opened Jobs
  import opened LocalJoin
  import S = Shuffle
  import J = Join
  import P = PartitionedJoin
  import In = Read
  import G = Grouping
  import C = Completion

  // ----- the job

  /** Two pipes with their node ids, and the join they feed. */
  datatype JoinJob = JoinJob(
    leftIds: seq<string>, left: Pipe,
    rightIds: seq<string>, right: Pipe,
    id: string, key: string, joinType: JoinType)

  function LeftChain(j: JoinJob): ChainJob {
    ChainJob(j.leftIds, PipeOps(j.left))
  }

  function RightChain(j: JoinJob): ChainJob {
    ChainJob(j.rightIds, PipeOps(j.right))
  }

  function JoinNode(j: JoinJob): DagNode {
    DagNode(j.id, Join(j.key, j.joinType))
  }

  /** The operators of the pipes work record by record, and there is an id for each node. */
  ghost predicate Piped(j: JoinJob) {
    && |j.leftIds| == |j.left.ops| + 1 && ChainOps(j.left.ops)
    && |j.rightIds| == |j.right.ops| + 1 && ChainOps(j.right.ops)
  }

  /** `spec` is the graph of the job, in any order of nodes and edges that puts the left pipe's last edge first. */
  ghost predicate JoinSpec(spec: DagSpecification, j: JoinJob) {
    && Piped(j)
    && WellFormed(spec) && NoFanOut(spec.edges) && SingleSink(spec, j.id) && CleanIds(spec) && C.ReadsUnfed(spec)
    && HasChain(spec, LeftChain(j)) && HasChain(spec, RightChain(j))
    && Find(spec.nodes, j.id) == Some(JoinNode(j))
    && Parents(spec.edges, j.id) == [LastId(LeftChain(j)), LastId(RightChain(j))]
  }

  /** `spec` planned for `n` partitions. */
  function InParts(spec: DagSpecification, n: nat): DagSpecification {
    spec.(partitions := n)
  }

  lemma InPartsIsJoin(spec: DagSpecification, j: JoinJob, n: nat)
    requires JoinSpec(spec, j)
    ensures JoinSpec(InParts(spec, n), j)
  {
    var s := InParts(spec, n);
    assert WellFormed(s) && SingleSink(s, j.id) && CleanIds(s) && C.ReadsUnfed(s);
    forall i | 0 <= i < |j.leftIds| ensures ChainNodeAt(s, LeftChain(j), i) {
      assert ChainNodeAt(spec, LeftChain(j), i);
    }
    forall i | 0 <= i < |j.rightIds| ensures ChainNodeAt(s, RightChain(j), i) {
      assert ChainNodeAt(spec, RightChain(j), i);
    }
  }

  // ----- one task

  /** What a task makes of the records of its two pipes. */
  function Joined(rt: Runtime, key: string, jt: JoinType, left: Outcome, right: Outcome): Outcome {
    if left.Err? then left
    else if right.Err? then right
    else
      var l, r := J.ToRows(rt, key, left.value), J.ToRows(rt, key, right.value);
      if l.Ok? && r.Ok? then Ok(J.CodeJoin(jt, l.value, r.value)) else Err("join failed")
  }

  function JoinedOutput(j: JoinJob, ctx: Context, n: nat, p: nat): Outcome
    requires n > 0 && ChainOps(j.left.ops) && ChainOps(j.right.ops)
  {
    Joined(ctx.rt, j.key, j.joinType, PipeOutput(j.left, ctx, n, p), PipeOutput(j.right, ctx, n, p))
  }

  lemma JoinOne(ctx: Context, id: string, key: string, jt: JoinType, p: nat, left: seq<Value>, right: seq<Value>)
    ensures Execute(ctx, id, Join(key, jt), [Partition(p, left)] + [Partition(p, right)]) ==
            AsPartition(p, Joined(ctx.rt, key, jt, Ok(left), Ok(right)))
  {
    assert [Partition(p, left)] + [Partition(p, right)] == [Partition(p, left), Partition(p, right)];
  }

  /** The value of a pipe's last node is what the pipe outputs. */
  lemma PipeMeaning(spec: DagSpecification, ids: seq<string>, s: Pipe, ctx: Context, empty: Partition)
    requires |ids| == |s.ops| + 1 && ChainOps(s.ops) && ctx.total > 0
    requires var c := ChainJob(ids, PipeOps(s)); WellFormed(spec) && HasChain(spec, c)
    ensures var id := LastId(ChainJob(ids, PipeOps(s)));
            && Declared(spec.nodes, id)
            && Eval(spec, ExecOf(ctx), empty, id) ==
               AsPartition(ctx.partition, PipeOutput(s, ctx, ctx.total, ctx.partition))
  {
    var c := ChainJob(ids, PipeOps(s));
    ChainEval(spec, c, ctx, empty, |s.ops|);
    PipeEnd(c, s, ctx, empty);
  }

  lemma JoinMeaning(spec: DagSpecification, j: JoinJob, ctx: Context, empty: Partition)
    requires JoinSpec(spec, j) && ctx.total > 0
    ensures Declared(spec.nodes, j.id)
    ensures SameOutcome(Eval(spec, ExecOf(ctx), empty, j.id),
                        AsPartition(ctx.partition, JoinedOutput(j, ctx, ctx.total, ctx.partition)))
  {
    PipeMeaning(spec, j.leftIds, j.left, ctx, empty);
    PipeMeaning(spec, j.rightIds, j.right, ctx, empty);
    TwoParents(spec, ExecOf(ctx), empty, j.id, LastId(LeftChain(j)), LastId(RightChain(j)), JoinNode(j));
    var l, r := PipeOutput(j.left, ctx, ctx.total, ctx.partition), PipeOutput(j.right, ctx, ctx.total, ctx.partition);
    if l.Ok? && r.Ok? {
      JoinOne(ctx, j.id, j.key, j.joinType, ctx.partition, l.value, r.value);
    }
  }

  /** What a task outputs when nothing is spilled. */
  ghost function PlainRecords(ctx: Context, empty: Partition, task: Task): Outcome {
    match Run(ExecOf(InTask(ctx, task)), empty, StagesOf(task), FinalKey(task))
    case Err(e) => Err(e)
    case Ok(parts) => Ok(S.Records(parts))
  }

  ghost function PlainOutcomes(ctx: Context, empty: Partition, tasks: seq<Task>): (r: seq<Outcome>)
    ensures |r| == |tasks| && forall p :: 0 <= p < |r| ==> r[p] == PlainRecords(ctx, empty, tasks[p])
  {
    seq(|tasks|, p requires 0 <= p < |tasks| => PlainRecords(ctx, empty, tasks[p]))
  }

  /** A task joins the records of its own partitions: no record of another task reaches it. */
  lemma JoinTask(spec: DagSpecification, j: JoinJob, ctx: Context, empty: Partition, job: Uuid, tasks: seq<Task>,
                 p: nat)
    requires JoinSpec(spec, j) && PossibleTasks(spec, job, tasks) && p < |tasks|
    ensures SameOutcome(PlainRecords(ctx, empty, tasks[p]), JoinedOutput(j, ctx, |tasks|, p))
  {
    TaskPartition(spec, job, tasks, p);
    var mine := ctx.(total := |tasks|, partition := p);
    EngineShuffles(mine, empty);
    TaskMeaning(spec, ExecOf(mine), empty, job, tasks, p, j.id);
    JoinMeaning(spec, j, mine, empty);
    var out := JoinedOutput(j, ctx, |tasks|, p);
    if out.Ok? {
      RecordsOfOne(p, out.value);
    }
  }

  // ----- the rows of a pipe, each with the task that reads it

  function TagAll(rows: seq<J.Row>, p: nat): (r: seq<Tagged>)
    ensures |r| == |rows| && forall i :: 0 <= i < |r| ==> r[i] == Tagged(rows[i], p)
  {
    seq(|rows|, i requires 0 <= i < |rows| => Tagged(rows[i], p))
  }

  /** The rows of every item; item `i` is read by task `i` modulo `n`. */
  function Tag<A>(items: seq<A>, f: A -> seq<J.Row>, n: nat): seq<Tagged>
    requires n > 0
  {
    if items == [] then []
    else
      var last := |items| - 1;
      Tag(items[..last], f, n) + TagAll(f(items[last]), last % n)
  }

  lemma RowsInConcat(a: seq<Tagged>, b: seq<Tagged>)
    ensures RowsIn(a + b) == RowsIn(a) + RowsIn(b)
  {
  }

  lemma {:induction false} BucketOfTagged(rows: seq<J.Row>, at: nat, p: nat)
    ensures Bucket(TagAll(rows, at), PartOf(), p) == if p == at then TagAll(rows, at) else []
  {
    if rows != [] {
      var init, last := rows[..|rows| - 1], rows[|rows| - 1];
      BucketOfTagged(init, at, p);
      assert TagAll(rows, at) == TagAll(init, at) + [Tagged(last, at)];
      BucketAppend(TagAll(init, at), Tagged(last, at), PartOf(), p);
    }
  }

  lemma OwnConcat(ts: seq<Tagged>, rows: seq<J.Row>, at: nat, p: nat)
    ensures Own(ts + TagAll(rows, at), p) == Own(ts, p) + (if p == at then rows else [])
  {
    BucketConcat(ts, TagAll(rows, at), p);
    BucketOfTagged(rows, at, p);
    RowsInConcat(Bucket(ts, PartOf(), p), Bucket(TagAll(rows, at), PartOf(), p));
    assert RowsIn(TagAll(rows, at)) == rows;
  }

  lemma {:induction false} BucketConcat(a: seq<Tagged>, b: seq<Tagged>, p: nat)
    ensures Bucket(a + b, PartOf(), p) == Bucket(a, PartOf(), p) + Bucket(b, PartOf(), p)
  {
    if b == [] {
      assert a + b == a;
    } else {
      var init, last := b[..|b| - 1], b[|b| - 1];
      assert b == init + [last] && a + b == (a + init) + [last];
      BucketConcat(a, init, p);
      BucketAppend(a + init, last, PartOf(), p);
      BucketAppend(init, last, PartOf(), p);
    }
  }

  /** Task `p` has the rows of the items it reads, and all tasks together have those of all items. */
  lemma {:induction false} TagRows<A>(items: seq<A>, f: A -> seq<J.Row>, n: nat, p: nat)
    requires n > 0
    ensures Own(Tag(items, f, n), p) == Expand(In.Pick(items, n, p), f)
    ensures RowsIn(Tag(items, f, n)) == Expand(items, f)
    ensures forall t :: t in Tag(items, f, n) ==> t.part < n
  {
    if items != [] {
      var last := |items| - 1;
      var init, x := items[..last], items[last];
      TagRows(init, f, n, p);
      OwnConcat(Tag(init, f, n), f(x), last % n, p);
      RowsInConcat(Tag(init, f, n), TagAll(f(x), last % n));
      assert items == init + [x];
      In.PickAppend(init, x, n, p);
      ExpandMore(In.Pick(init, n, p), x, f);
    }
  }

  lemma ExpandMore<A, B>(s: seq<A>, x: A, f: A -> seq<B>)
    ensures Expand(s + [x], f) == Expand(s, f) + f(x)
    ensures Expand(s + [], f) == Expand(s, f)
  {
    assert (s + [x])[..|s|] == s && s + [] == s;
  }

  // ----- the rows of records

  /** The rows of records that all have one. */
  function RowsFrom(rt: Runtime, key: string, recs: seq<Value>): seq<J.Row> {
    if J.ToRows(rt, key, recs).Ok? then J.ToRows(rt, key, recs).value else []
  }

  function ItemRows(rt: Runtime, key: string, f: In.Item -> seq<Value>): In.Item -> seq<J.Row> {
    (x: In.Item) => RowsFrom(rt, key, f(x))
  }

  lemma {:induction false} RowsConcat(rt: Runtime, key: string, a: seq<Value>, b: seq<Value>)
    ensures J.ToRows(rt, key, a + b).Ok? <==> J.ToRows(rt, key, a).Ok? && J.ToRows(rt, key, b).Ok?
    ensures RowsFrom(rt, key, a + b) ==
            if J.ToRows(rt, key, a + b).Ok? then RowsFrom(rt, key, a) + RowsFrom(rt, key, b) else []
  {
    if b == [] {
      assert a + b == a;
    } else {
      assert (a + b)[..|a + b| - 1] == a + b[..|b| - 1];
      RowsConcat(rt, key, a, b[..|b| - 1]);
    }
  }

  lemma {:induction false} RowsOfItems(rt: Runtime, key: string, items: seq<In.Item>, f: In.Item -> seq<Value>)
    requires J.ToRows(rt, key, Expand(items, f)).Ok?
    ensures RowsFrom(rt, key, Expand(items, f)) == Expand(items, ItemRows(rt, key, f))
  {
    if items != [] {
      var init, x := items[..|items| - 1], items[|items| - 1];
      RowsConcat(rt, key, Expand(init, f), f(x));
      RowsOfItems(rt, key, init, f);
    }
  }

  /** The rows come from the records, one by one. */
  lemma {:induction false} RowMembers(rt: Runtime, key: string, recs: seq<Value>)
    requires J.ToRows(rt, key, recs).Ok?
    ensures forall a :: a in recs ==> J.ToRow(rt, key, a).Ok? && J.ToRow(rt, key, a).value in RowsFrom(rt, key, recs)
    ensures forall row :: row in RowsFrom(rt, key, recs) ==> IsRowOf(rt, key, recs, row)
  {
    if recs != [] {
      var init, last := recs[..|recs| - 1], recs[|recs| - 1];
      assert recs == init + [last];
      RowMembers(rt, key, init);
      forall row | row in RowsFrom(rt, key, recs) ensures IsRowOf(rt, key, recs, row) {
        if row in RowsFrom(rt, key, init) {
          assert IsRowOf(rt, key, init, row);
        } else {
          assert J.ToRow(rt, key, last) == Ok(row);
        }
      }
    }
  }

  ghost predicate IsRowOf(rt: Runtime, key: string, recs: seq<Value>, row: J.Row) {
    exists a :: a in recs && J.ToRow(rt, key, a) == Ok(row)
  }

  lemma RowHasKey(rt: Runtime, key: string, recs: seq<Value>, row: J.Row)
    requires IsRowOf(rt, key, recs, row)
    ensures HasKeyField(key, row)
  {
  }

  // ----- all tasks

  /** Every record of the whole input has a row exactly when every record of every task has. */
  lemma RowsTogether(rt: Runtime, key: string, s: Pipe, ctx: Context, n: nat)
    requires n > 0 && ChainOps(s.ops) && PipeOutput(s, ctx, 1, 0).Ok?
    ensures J.ToRows(rt, key, PipeOutput(s, ctx, 1, 0).value).Ok? <==>
            forall p :: 0 <= p < n ==> J.ToRows(rt, key, RecordsOf(s, ctx, n, p)).Ok?
  {
    var whole := PipeOutput(s, ctx, 1, 0).value;
    P.RowsOkIff(rt, key, whole);
    forall p | 0 <= p < n
      ensures J.ToRows(rt, key, RecordsOf(s, ctx, n, p)).Ok? <==>
              forall r :: r in RecordsOf(s, ctx, n, p) ==> J.ToRow(rt, key, r).Ok?
    {
      P.RowsOkIff(rt, key, RecordsOf(s, ctx, n, p));
    }
    forall r ensures r in whole <==> exists p :: 0 <= p < n && r in RecordsOf(s, ctx, n, p) {
      InSomeTask(ctx.tx, s.format, ctx.files(s.uri), s.ops, n, r);
      assert forall p :: 0 <= p < n ==>
             RecordsOf(s, ctx, n, p) == G.OutputOf(ctx.tx, s.format, ctx.files(s.uri), s.ops, n, p);
    }
  }

  /** What task `p` of `n` has behind a pipe. */
  ghost function RecordsOf(s: Pipe, ctx: Context, n: nat, p: nat): seq<Value>
    requires n > 0 && ChainOps(s.ops)
  {
    G.OutputOf(ctx.tx, s.format, ctx.files(s.uri), s.ops, n, p)
  }

  /** The tagged rows behind a pipe. */
  ghost function SideTags(rt: Runtime, key: string, s: Pipe, ctx: Context, n: nat): seq<Tagged>
    requires n > 0 && ChainOps(s.ops)
  {
    var plan := In.PlanRead(ctx.tx, s.format, ctx.files(s.uri));
    if plan.Ok? then Tag(plan.value.items, ItemRows(rt, key, In.ItemRecords(ctx.tx, plan.value.mode, s.ops)), n) else []
  }

  lemma SideOfTask(rt: Runtime, key: string, s: Pipe, ctx: Context, n: nat, p: nat)
    requires n > 0 && ChainOps(s.ops) && PipeOutput(s, ctx, n, p).Ok?
    requires J.ToRows(rt, key, RecordsOf(s, ctx, n, p)).Ok?
    ensures Own(SideTags(rt, key, s, ctx, n), p) == RowsFrom(rt, key, RecordsOf(s, ctx, n, p))
  {
    In.TaskSplit(ctx.tx, s.format, ctx.files(s.uri), s.ops, n, p);
    var plan := In.PlanRead(ctx.tx, s.format, ctx.files(s.uri)).value;
    var f := In.ItemRecords(ctx.tx, plan.mode, s.ops);
    RowsOfItems(rt, key, In.Pick(plan.items, n, p), f);
    TagRows(plan.items, ItemRows(rt, key, f), n, p);
  }

  lemma SideOfAll(rt: Runtime, key: string, s: Pipe, ctx: Context, n: nat)
    requires n > 0 && ChainOps(s.ops) && PipeOutput(s, ctx, 1, 0).Ok?
    requires J.ToRows(rt, key, PipeOutput(s, ctx, 1, 0).value).Ok?
    ensures RowsIn(SideTags(rt, key, s, ctx, n)) == RowsFrom(rt, key, PipeOutput(s, ctx, 1, 0).value)
    ensures forall t :: t in SideTags(rt, key, s, ctx, n) ==> t.part < n && HasKeyField(key, t.row)
  {
    In.TaskSplit(ctx.tx, s.format, ctx.files(s.uri), s.ops, 1, 0);
    var plan := In.PlanRead(ctx.tx, s.format, ctx.files(s.uri)).value;
    var f := In.ItemRecords(ctx.tx, plan.mode, s.ops);
    In.PickAll(plan.items);
    RowsOfItems(rt, key, plan.items, f);
    TagRows(plan.items, ItemRows(rt, key, f), n, 0);
    RowMembers(rt, key, PipeOutput(s, ctx, 1, 0).value);
    forall t | t in SideTags(rt, key, s, ctx, n) ensures t.part < n && HasKeyField(key, t.row) {
      RowInList(SideTags(rt, key, s, ctx, n), t.row);
      RowHasKey(rt, key, PipeOutput(s, ctx, 1, 0).value, t.row);
    }
  }

  /** Each outcome is the join of its task's records. */
  ghost predicate JoinOutcomes(outs: seq<Outcome>, j: JoinJob, ctx: Context)
    requires ChainOps(j.left.ops) && ChainOps(j.right.ops)
  {
    forall p :: 0 <= p < |outs| ==> SameOutcome(outs[p], JoinedOutput(j, ctx, |outs|, p))
  }

  /** The pipes of all tasks succeed, and each of their records has a key. */
  ghost predicate Sound(j: JoinJob, ctx: Context, n: nat)
    requires n > 0 && ChainOps(j.left.ops) && ChainOps(j.right.ops)
  {
    forall p: nat :: p < n ==> SoundIn(j.left, j.key, ctx, n, p) && SoundIn(j.right, j.key, ctx, n, p)
  }

  ghost predicate SoundIn(s: Pipe, key: string, ctx: Context, n: nat, p: nat)
    requires n > 0 && ChainOps(s.ops)
  {
    PipeOutput(s, ctx, n, p).Ok? && J.ToRows(ctx.rt, key, RecordsOf(s, ctx, n, p)).Ok?
  }

  lemma SoundTogether(s: Pipe, key: string, ctx: Context, n: nat)
    requires n > 0 && ChainOps(s.ops)
    ensures (forall p: nat :: p < n ==> SoundIn(s, key, ctx, n, p)) <==> SoundIn(s, key, ctx, 1, 0)
  {
    In.TasksSucceedTogether(ctx.tx, s.format, ctx.files(s.uri), s.ops, n);
    if PipeOutput(s, ctx, 1, 0).Ok? {
      RowsTogether(ctx.rt, key, s, ctx, n);
      assert forall p: nat :: p < n ==>
             (SoundIn(s, key, ctx, n, p) <==> J.ToRows(ctx.rt, key, RecordsOf(s, ctx, n, p)).Ok?);
    } else {
      var p :| 0 <= p < n && In.TaskOutput(ctx.tx, s.format, ctx.files(s.uri), s.ops, n, p).Err?;
      assert !SoundIn(s, key, ctx, n, p);
    }
  }

  lemma JoinSucceeds(outs: seq<Outcome>, j: JoinJob, ctx: Context)
    requires ChainOps(j.left.ops) && ChainOps(j.right.ops) && |outs| > 0 && JoinOutcomes(outs, j, ctx)
    ensures AllOk(outs) <==> Sound(j, ctx, |outs|)
    ensures AllOk(outs) <==> JoinedOutput(j, ctx, 1, 0).Ok?
  {
    SoundTogether(j.left, j.key, ctx, |outs|);
    SoundTogether(j.right, j.key, ctx, |outs|);
    assert forall p: nat :: p < |outs| ==>
        (outs[p].Ok? <==> SoundIn(j.left, j.key, ctx, |outs|, p) && SoundIn(j.right, j.key, ctx, |outs|, p));
    assert JoinedOutput(j, ctx, 1, 0).Ok? <==> SoundIn(j.left, j.key, ctx, 1, 0) && SoundIn(j.right, j.key, ctx, 1, 0);
  }

  /** The records have one key text. */
  ghost predicate SameKey(rt: Runtime, key: string, a: Value, b: Value) {
    var x, y := J.ToRow(rt, key, a), J.ToRow(rt, key, b);
    x.Ok? && y.Ok? && x.value.key == y.value.key
  }

  /** No left and right record with equal key text lie in different tasks. */
  ghost predicate MatchesTogether(j: JoinJob, ctx: Context, n: nat)
    requires n > 0 && ChainOps(j.left.ops) && ChainOps(j.right.ops)
  {
    forall p: nat, q: nat, a, b ::
      p < n && q < n && a in RecordsOf(j.left, ctx, n, p) && b in RecordsOf(j.right, ctx, n, q) ==>
        SameKey(ctx.rt, j.key, a, b) ==> p == q
  }

  /** A record of a task is a row with that task's tag, and the other way round. */
  lemma TagOfRecord(s: Pipe, key: string, ctx: Context, n: nat, p: nat, a: Value)
    requires n > 0 && ChainOps(s.ops) && SoundIn(s, key, ctx, n, p) && a in RecordsOf(s, ctx, n, p)
    ensures J.ToRow(ctx.rt, key, a).Ok?
    ensures Tagged(J.ToRow(ctx.rt, key, a).value, p) in SideTags(ctx.rt, key, s, ctx, n)
  {
    SideOfTask(ctx.rt, key, s, ctx, n, p);
    RowMembers(ctx.rt, key, RecordsOf(s, ctx, n, p));
    RowInOwn(SideTags(ctx.rt, key, s, ctx, n), J.ToRow(ctx.rt, key, a).value, p);
  }

  lemma RecordOfTag(s: Pipe, key: string, ctx: Context, n: nat, t: Tagged) returns (a: Value)
    requires n > 0 && ChainOps(s.ops) && SoundIn(s, key, ctx, n, t.part) && t in SideTags(ctx.rt, key, s, ctx, n)
    ensures a in RecordsOf(s, ctx, n, t.part) && J.ToRow(ctx.rt, key, a) == Ok(t.row)
  {
    SideOfTask(ctx.rt, key, s, ctx, n, t.part);
    RowMembers(ctx.rt, key, RecordsOf(s, ctx, n, t.part));
    RowInOwn(SideTags(ctx.rt, key, s, ctx, n), t.row, t.part);
    assert IsRowOf(ctx.rt, key, RecordsOf(s, ctx, n, t.part), t.row);
    a :| a in RecordsOf(s, ctx, n, t.part) && J.ToRow(ctx.rt, key, a) == Ok(t.row);
  }

  lemma TogetherIff(j: JoinJob, ctx: Context, n: nat)
    requires n > 0 && ChainOps(j.left.ops) && ChainOps(j.right.ops) && Sound(j, ctx, n)
    requires forall t :: t in SideTags(ctx.rt, j.key, j.left, ctx, n) ==> t.part < n
    requires forall t :: t in SideTags(ctx.rt, j.key, j.right, ctx, n) ==> t.part < n
    ensures Together(SideTags(ctx.rt, j.key, j.left, ctx, n), SideTags(ctx.rt, j.key, j.right, ctx, n)) <==>
            MatchesTogether(j, ctx, n)
  {
    var left, right := SideTags(ctx.rt, j.key, j.left, ctx, n), SideTags(ctx.rt, j.key, j.right, ctx, n);
    if Together(left, right) {
      forall p: nat, q: nat, a, b
        | p < n && q < n && a in RecordsOf(j.left, ctx, n, p) && b in RecordsOf(j.right, ctx, n, q) &&
          SameKey(ctx.rt, j.key, a, b)
        ensures p == q
      {
        TagOfRecord(j.left, j.key, ctx, n, p, a);
        TagOfRecord(j.right, j.key, ctx, n, q, b);
      }
    }
    if MatchesTogether(j, ctx, n) {
      forall a, b | a in left && b in right && a.row.key == b.row.key ensures a.part == b.part {
        var x := RecordOfTag(j.left, j.key, ctx, n, a);
        var y := RecordOfTag(j.right, j.key, ctx, n, b);
        assert SameKey(ctx.rt, j.key, x, y);
      }
    }
  }

  lemma JoinSums(outs: seq<Outcome>, j: JoinJob, ctx: Context)
    requires ChainOps(j.left.ops) && ChainOps(j.right.ops) && |outs| > 0 && JoinOutcomes(outs, j, ctx)
    requires AllOk(outs) && Sound(j, ctx, |outs|)
    ensures var n := |outs|;
            SumOver(n, OkRecords(outs)) ==
            SumOver(n, Bags(JoinOf(j.joinType, SideTags(ctx.rt, j.key, j.left, ctx, n),
                                   SideTags(ctx.rt, j.key, j.right, ctx, n))))
  {
    var n := |outs|;
    var f := JoinOf(j.joinType, SideTags(ctx.rt, j.key, j.left, ctx, n), SideTags(ctx.rt, j.key, j.right, ctx, n));
    forall p: nat | p < n ensures OkRecords(outs)(p) == Bags(f)(p) {
      assert SoundIn(j.left, j.key, ctx, n, p) && SoundIn(j.right, j.key, ctx, n, p);
      SideOfTask(ctx.rt, j.key, j.left, ctx, n, p);
      SideOfTask(ctx.rt, j.key, j.right, ctx, n, p);
      assert SameOutcome(outs[p], JoinedOutput(j, ctx, n, p));
    }
    SumExt(n, OkRecords(outs), Bags(f));
  }

  /** Outcomes of all tasks, and the outcome of one task that has everything. */
  lemma JoinOutcomesIff(outs: seq<Outcome>, one: Outcome, j: JoinJob, ctx: Context)
    requires ChainOps(j.left.ops) && ChainOps(j.right.ops) && |outs| > 0 && JoinOutcomes(outs, j, ctx)
    requires SameOutcome(one, JoinedOutput(j, ctx, 1, 0))
    ensures AllOk(outs) <==> one.Ok?
    ensures one.Ok? ==> (SumOver(|outs|, OkRecords(outs)) == multiset(one.value) <==> MatchesTogether(j, ctx, |outs|))
  {
    var n := |outs|;
    JoinSucceeds(outs, j, ctx);
    if one.Ok? {
      var left, right := SideTags(ctx.rt, j.key, j.left, ctx, n), SideTags(ctx.rt, j.key, j.right, ctx, n);
      JoinSums(outs, j, ctx);
      SideOfAll(ctx.rt, j.key, j.left, ctx, n);
      SideOfAll(ctx.rt, j.key, j.right, ctx, n);
      TogetherIff(j, ctx, n);
      LocalJoinIff(j.key, j.joinType, left, right, n);
    }
  }

  lemma JoinTasks(spec: DagSpecification, j: JoinJob, ctx: Context, empty: Partition, job: Uuid, tasks: seq<Task>)
    requires JoinSpec(spec, j) && PossibleTasks(spec, job, tasks)
    ensures JoinOutcomes(PlainOutcomes(ctx, empty, tasks), j, ctx)
  {
    var outs := PlainOutcomes(ctx, empty, tasks);
    forall p | 0 <= p < |outs| ensures SameOutcome(outs[p], JoinedOutput(j, ctx, |outs|, p)) {
      JoinTask(spec, j, ctx, empty, job, tasks, p);
    }
  }

  /**
   A job that reads and transforms two inputs and joins them, from planning to output: all tasks succeed exactly when
   the single-partition job does, and then they output its records exactly when no left and right record with equal
   key text lie in different tasks.
   */
  lemma JoinJobIff(spec: DagSpecification, j: JoinJob, ctx: Context, empty: Partition, job: Uuid, job1: Uuid,
                   tasks: seq<Task>, single: seq<Task>)
    requires JoinSpec(spec, j) && |tasks| > 0 && |single| == 1
    requires PossibleTasks(InParts(spec, |tasks|), job, tasks) && PossibleTasks(InParts(spec, 1), job1, single)
    ensures AllOk(PlainOutcomes(ctx, empty, tasks)) <==> PlainRecords(ctx, empty, single[0]).Ok?
    ensures PlainRecords(ctx, empty, single[0]).Ok? ==>
              (SumOver(|tasks|, OkRecords(PlainOutcomes(ctx, empty, tasks))) ==
               multiset(PlainRecords(ctx, empty, single[0]).value) <==>
               MatchesTogether(j, ctx, |tasks|))
  {
    InPartsIsJoin(spec, j, |tasks|);
    InPartsIsJoin(spec, j, 1);
    JoinTasks(InParts(spec, |tasks|), j, ctx, empty, job, tasks);
    JoinTask(InParts(spec, 1), j, ctx, empty, job1, single, 0);
    JoinOutcomesIff(PlainOutcomes(ctx, empty, tasks), PlainRecords(ctx, empty, single[0]), j, ctx);
  }

  // ----- with spill files

  /** At every memory limit, a task of a join job that completes outputs what it outputs without spill files. */
  lemma CompletedJoinTask(spec: DagSpecification, j: JoinJob, w: Workers, ctx: Context, empty: Partition, job: Uuid,
                          tasks: seq<Task>, p: nat)
    requires JoinSpec(spec, j) && PossibleTasks(spec, job, tasks) && p < |tasks|
    requires empty.records == [] && TaskRecords(w, ctx, empty, tasks[p]).Ok?
    ensures TaskRecords(w, ctx, empty, tasks[p]) == PlainRecords(ctx, empty, tasks[p])
  {
    var mine := InTask(ctx, tasks[p]);
    EngineTaskMeaning(w(tasks[p]), mine, spec, empty, job, tasks, p, j.id);
    EngineShuffles(mine, empty);
    TaskMeaning(spec, ExecOf(mine), empty, job, tasks, p, j.id);
  }

  lemma CompletedJoinTasks(spec: DagSpecification, j: JoinJob, w: Workers, ctx: Context, empty: Partition, job: Uuid,
                           tasks: seq<Task>)
    requires JoinSpec(spec, j) && PossibleTasks(spec, job, tasks) && empty.records == []
    requires AllOk(Outcomes(w, ctx, empty, tasks))
    ensures Outcomes(w, ctx, empty, tasks) == PlainOutcomes(ctx, empty, tasks)
  {
    var outs, plain := Outcomes(w, ctx, empty, tasks), PlainOutcomes(ctx, empty, tasks);
    forall p | 0 <= p < |tasks| ensures outs[p] == plain[p] {
      assert outs[p].Ok?;
      CompletedJoinTask(spec, j, w, ctx, empty, job, tasks, p);
    }
  }

  /** The same for whole jobs whose tasks complete, whatever the memory limits and spill paths. */
  lemma CompletedJoinJobIff(spec: DagSpecification, j: JoinJob, w: Workers, ctx: Context, empty: Partition, job: Uuid,
                            job1: Uuid, tasks: seq<Task>, single: seq<Task>)
    requires JoinSpec(spec, j) && |tasks| > 0 && |single| == 1 && empty.records == []
    requires PossibleTasks(InParts(spec, |tasks|), job, tasks) && PossibleTasks(InParts(spec, 1), job1, single)
    requires AllOk(Outcomes(w, ctx, empty, tasks)) && TaskRecords(w, ctx, empty, single[0]).Ok?
    ensures SumOver(|tasks|, OkRecords(Outcomes(w, ctx, empty, tasks))) ==
            multiset(TaskRecords(w, ctx, empty, single[0]).value) <==>
            MatchesTogether(j, ctx, |tasks|)
  {
    InPartsIsJoin(spec, j, |tasks|);
    InPartsIsJoin(spec, j, 1);
    CompletedJoinTasks(InParts(spec, |tasks|), j, w, ctx, empty, job, tasks);
    CompletedJoinTask(InParts(spec, 1), j, w, ctx, empty, job1, single, 0);
    JoinJobIff(spec, j, ctx, empty, job, job1, tasks, single);
  }

  // ----- such jobs exist

  function JoinIds(j: JoinJob): seq<string> {
    j.leftIds + j.rightIds + [j.id]
  }

  /** Distinct ids that edge labels can carry. */
  ghost predicate ValidJoin(j: JoinJob) {
    Piped(j) && NoDup(JoinIds(j)) && forall i :: 0 <= i < |JoinIds(j)| ==> !HasArrow(JoinIds(j)[i])
  }

  function JoinOps(j: JoinJob): (r: seq<OperatorType>) {
    PipeOps(j.left) + PipeOps(j.right) + [Join(j.key, j.joinType)]
  }

  /** The node that node `a` feeds: the next one of its pipe, and behind its pipe the join. */
  function Next(j: JoinJob, a: nat): nat {
    if a + 1 == |j.leftIds| then |j.leftIds| + |j.rightIds| else a + 1
  }

  function JoinEdges(j: JoinJob): (r: seq<DagEdge>)
    requires Piped(j)
    ensures |r| == |JoinIds(j)| - 1
    ensures forall a :: 0 <= a < |r| ==> r[a] == DagEdge(JoinIds(j)[a], JoinIds(j)[Next(j, a)])
  {
    seq(|JoinIds(j)| - 1, a requires 0 <= a < |JoinIds(j)| - 1 => DagEdge(JoinIds(j)[a], JoinIds(j)[Next(j, a)]))
  }

  /** Left pipe, right pipe and join, declared in this order. */
  function JoinGraph(j: JoinJob, n: nat): DagSpecification
    requires Piped(j)
  {
    DagSpecification(ChainNodes(ChainJob(JoinIds(j), JoinOps(j))), JoinEdges(j), n)
  }

  lemma GraphEnds(j: JoinJob, n: nat)
    requires ValidJoin(j)
    ensures Ids(JoinGraph(j, n).nodes) == JoinIds(j)
    ensures forall e :: e in JoinEdges(j) ==> e.src in JoinIds(j) && e.dst in JoinIds(j) && !HasArrow(e.src)
  {
    var edges, ids := JoinEdges(j), JoinIds(j);
    forall e | e in edges ensures e.src in ids && e.dst in ids && !HasArrow(e.src) {
      var a :| 0 <= a < |edges| && edges[a] == e;
      assert e.src == ids[a] && e.dst == ids[Next(j, a)];
    }
  }

  lemma GraphForward(j: JoinJob)
    requires ValidJoin(j)
    ensures Forward(JoinEdges(j), JoinIds(j)) && NoFanOut(JoinEdges(j))
  {
    var edges, ids := JoinEdges(j), JoinIds(j);
    forall i | 0 <= i < |ids| ensures PredsIn(edges, ids[i], Elems(ids[..i])) {
      forall e | e in edges && e.dst == ids[i] ensures e.src in Elems(ids[..i]) {
        var a :| 0 <= a < |edges| && edges[a] == e;
        assert Next(j, a) == i && a < i;
        assert ids[..i][a] == e.src;
      }
    }
  }

  lemma GraphSink(j: JoinJob, n: nat)
    requires ValidJoin(j)
    ensures SingleSink(JoinGraph(j, n), j.id)
  {
    var spec, ids := JoinGraph(j, n), JoinIds(j);
    GraphEnds(j, n);
    assert ids[|ids| - 1] == j.id;
    forall id | Declared(spec.nodes, id) && id != j.id ensures exists e :: e in spec.edges && e.src == id {
      var a :| 0 <= a < |ids| && ids[a] == id;
      assert spec.edges[a] in spec.edges && spec.edges[a].src == id;
    }
  }

  lemma GraphIsClean(j: JoinJob, n: nat)
    requires ValidJoin(j)
    ensures CleanIds(JoinGraph(j, n))
  {
    var spec := JoinGraph(j, n);
    GraphEnds(j, n);
    assert forall i :: 0 <= i < |JoinOps(j)| ==> !JoinOps(j)[i].ReduceByKey?;
    assert InjectedIds(spec.nodes) == {};
  }

  /** Edge `a` is the only one into the node it enters, unless that is the join. */
  lemma FedBy(j: JoinJob, a: nat)
    requires ValidJoin(j) && a < |JoinEdges(j)| && Next(j, a) < |JoinIds(j)| - 1
    ensures Parents(JoinEdges(j), JoinIds(j)[Next(j, a)]) == [JoinIds(j)[a]]
  {
    SingleParent(JoinEdges(j), a, JoinIds(j)[Next(j, a)]);
  }

  lemma FedByNone(j: JoinJob, i: nat)
    requires ValidJoin(j) && (i == 0 || i == |j.leftIds|)
    ensures Parents(JoinEdges(j), JoinIds(j)[i]) == []
  {
    var edges, ids := JoinEdges(j), JoinIds(j);
    forall e | e in edges ensures e.dst != ids[i] {
      var a :| 0 <= a < |edges| && edges[a] == e;
      assert Next(j, a) != i;
    }
    NoParents(edges, ids[i]);
  }

  lemma GraphNodeIs(j: JoinJob, n: nat, i: nat, m: DagNode)
    requires ValidJoin(j) && i < |JoinIds(j)| == |JoinOps(j)| && m == DagNode(JoinIds(j)[i], JoinOps(j)[i])
    ensures Declared(JoinGraph(j, n).nodes, m.id) && Find(JoinGraph(j, n).nodes, m.id) == Some(m)
  {
    var nodes := JoinGraph(j, n).nodes;
    GraphEnds(j, n);
    assert nodes[i] == m;
    FindDistinct(nodes, m);
  }

  lemma LeftPlace(j: JoinJob, i: nat)
    requires Piped(j) && i < |j.leftIds|
    ensures |JoinIds(j)| == |JoinOps(j)|
    ensures JoinIds(j)[i] == j.leftIds[i] && JoinOps(j)[i] == PipeOps(j.left)[i]
  {
  }

  lemma RightPlace(j: JoinJob, i: nat)
    requires Piped(j) && i < |j.rightIds|
    ensures |JoinIds(j)| == |JoinOps(j)|
    ensures JoinIds(j)[|j.leftIds| + i] == j.rightIds[i] && JoinOps(j)[|j.leftIds| + i] == PipeOps(j.right)[i]
  {
  }

  lemma JoinPlace(j: JoinJob)
    requires Piped(j)
    ensures |JoinIds(j)| == |JoinOps(j)| == |j.leftIds| + |j.rightIds| + 1
    ensures JoinIds(j)[|j.leftIds| + |j.rightIds|] == j.id
    ensures JoinOps(j)[|j.leftIds| + |j.rightIds|] == Join(j.key, j.joinType)
  {
  }

  lemma LeftFed(j: JoinJob, i: nat)
    requires ValidJoin(j) && i < |j.leftIds|
    ensures Parents(JoinEdges(j), j.leftIds[i]) == if i == 0 then [] else [j.leftIds[i - 1]]
  {
    LeftPlace(j, i);
    if i == 0 {
      FedByNone(j, 0);
    } else {
      LeftPlace(j, i - 1);
      var a := i - 1;
      assert Next(j, a) == i;
      FedBy(j, a);
    }
  }

  lemma LeftNode(j: JoinJob, n: nat, i: nat)
    requires ValidJoin(j) && i < |j.leftIds|
    ensures ChainNodeAt(JoinGraph(j, n), LeftChain(j), i)
  {
    LeftPlace(j, i);
    GraphNodeIs(j, n, i, DagNode(j.leftIds[i], PipeOps(j.left)[i]));
    LeftFed(j, i);
  }

  lemma RightFed(j: JoinJob, i: nat)
    requires ValidJoin(j) && i < |j.rightIds|
    ensures Parents(JoinEdges(j), j.rightIds[i]) == if i == 0 then [] else [j.rightIds[i - 1]]
  {
    var k := |j.leftIds|;
    RightPlace(j, i);
    if i == 0 {
      FedByNone(j, k);
    } else {
      RightPlace(j, i - 1);
      var a := k + (i - 1);
      assert Next(j, a) == k + i;
      FedBy(j, a);
    }
  }

  lemma RightNode(j: JoinJob, n: nat, i: nat)
    requires ValidJoin(j) && i < |j.rightIds|
    ensures ChainNodeAt(JoinGraph(j, n), RightChain(j), i)
  {
    RightPlace(j, i);
    GraphNodeIs(j, n, |j.leftIds| + i, DagNode(j.rightIds[i], PipeOps(j.right)[i]));
    RightFed(j, i);
  }

  lemma GraphHasPipes(j: JoinJob, n: nat)
    requires ValidJoin(j)
    ensures HasChain(JoinGraph(j, n), LeftChain(j)) && HasChain(JoinGraph(j, n), RightChain(j))
  {
    forall i | 0 <= i < |j.leftIds| ensures ChainNodeAt(JoinGraph(j, n), LeftChain(j), i) {
      LeftNode(j, n, i);
    }
    forall i | 0 <= i < |j.rightIds| ensures ChainNodeAt(JoinGraph(j, n), RightChain(j), i) {
      RightNode(j, n, i);
    }
  }

  lemma JoinIsFed(j: JoinJob)
    requires ValidJoin(j)
    ensures Parents(JoinEdges(j), j.id) == [LastId(LeftChain(j)), LastId(RightChain(j))]
  {
    var edges, ids, k, m := JoinEdges(j), JoinIds(j), |j.leftIds|, |j.leftIds| + |j.rightIds|;
    LeftPlace(j, k - 1);
    RightPlace(j, |j.rightIds| - 1);
    JoinPlace(j);
    forall a | 0 <= a < |edges| && a != k - 1 && a != m - 1 ensures edges[a].dst != j.id {
      assert Next(j, a) < m;
    }
    assert edges[k - 1] == DagEdge(ids[k - 1], ids[m]) && edges[m - 1] == DagEdge(ids[m - 1], ids[m]);
    DoubleParent(edges, k - 1, m - 1, j.id);
  }

  lemma GraphHasJoin(j: JoinJob, n: nat)
    requires ValidJoin(j)
    ensures Find(JoinGraph(j, n).nodes, j.id) == Some(JoinNode(j))
  {
    JoinPlace(j);
    GraphNodeIs(j, n, |j.leftIds| + |j.rightIds|, JoinNode(j));
  }

  lemma GraphReadsUnfed(j: JoinJob, n: nat)
    requires ValidJoin(j)
    ensures C.ReadsUnfed(JoinGraph(j, n))
  {
    var nodes := JoinGraph(j, n).nodes;
    forall m | m in nodes && m.operator.Read? ensures Parents(JoinEdges(j), m.id) == [] {
      var i :| 0 <= i < |nodes| && nodes[i] == m;
      assert i == 0 || i == |j.leftIds|;
      FedByNone(j, i);
    }
  }

  lemma GraphIsWellFormed(j: JoinJob, n: nat)
    requires ValidJoin(j)
    ensures WellFormed(JoinGraph(j, n))
  {
    GraphEnds(j, n);
    GraphForward(j);
    ForwardIsAcyclic(JoinEdges(j), JoinIds(j));
  }

  lemma GraphIsJoin(j: JoinJob, n: nat)
    requires ValidJoin(j)
    ensures JoinSpec(JoinGraph(j, n), j)
  {
    GraphIsWellFormed(j, n);
    GraphForward(j);
    GraphSink(j, n);
    GraphIsClean(j, n);
    GraphReadsUnfed(j, n);
    GraphHasPipes(j, n);
    GraphHasJoin(j, n);
    JoinIsFed(j);
  }

  /** Two pipes and a join make up such a graph, and it has a materialisation for every partition count. */
  lemma JoinJobsExist(j: JoinJob, n: nat, job: Uuid) returns (tasks: seq<Task>)
    requires ValidJoin(j)
    ensures JoinSpec(JoinGraph(j, n), j) && PossibleTasks(JoinGraph(j, n), job, tasks) && |tasks| == n
  {
    GraphIsJoin(j, n);
    LeftPlace(j, 0);
    assert JoinGraph(j, n).nodes[0].operator.Read?;
    tasks := TasksExist(JoinGraph(j, n), job);
  }

  // ----- shuffles in front of a join

  /** A join fed by two shuffles fails unless each of them makes a single bucket. */
  lemma ShuffledJoinFails(spec: DagSpecification, ctx: Context, empty: Partition, id: string, p: DagNode, q: DagNode,
                          key: string, jt: JoinType)
    requires WellFormed(spec) && Find(spec.nodes, id) == Some(DagNode(id, Join(key, jt)))
    requires Find(spec.nodes, p.id) == Some(p) && Find(spec.nodes, q.id) == Some(q) &&
             Parents(spec.edges, id) == [p.id, q.id]
    requires p.operator.ShuffleByKey? && q.operator.ShuffleByKey?
    requires p.operator.totalPartitions > 1 || q.operator.totalPartitions > 1
    ensures Declared(spec.nodes, id) && Eval(spec, ExecOf(ctx), empty, id).Err?
  {
    var node := DagNode(id, Join(key, jt));
    ShuffleBuckets(spec, ctx, empty, p);
    ShuffleBuckets(spec, ctx, empty, q);
    TwoParents(spec, ExecOf(ctx), empty, id, p.id, q.id, node);
    JoinOfMany(ctx, node, Eval(spec, ExecOf(ctx), empty, p.id), Eval(spec, ExecOf(ctx), empty, q.id));
  }

  /** So does every task of a job that ends in such a join, at every memory limit. */
  lemma ShuffledJoinTaskFails(spec: DagSpecification, w: Workers, ctx: Context, empty: Partition, id: string,
                              p: DagNode, q: DagNode, key: string, jt: JoinType, job: Uuid, tasks: seq<Task>, i: nat)
    requires WellFormed(spec) && NoFanOut(spec.edges) && SingleSink(spec, id) && CleanIds(spec) && C.ReadsUnfed(spec)
    requires Find(spec.nodes, id) == Some(DagNode(id, Join(key, jt)))
    requires Find(spec.nodes, p.id) == Some(p) && Find(spec.nodes, q.id) == Some(q) &&
             Parents(spec.edges, id) == [p.id, q.id]
    requires p.operator.ShuffleByKey? && q.operator.ShuffleByKey?
    requires p.operator.totalPartitions > 1 || q.operator.totalPartitions > 1
    requires PossibleTasks(spec, job, tasks) && i < |tasks| && empty.records == []
    ensures TaskRecords(w, ctx, empty, tasks[i]).Err?
  {
    ShuffledJoinFails(spec, InTask(ctx, tasks[i]), empty, id, p, q, key, jt);
    EngineTaskMeaning(w(tasks[i]), InTask(ctx, tasks[i]), spec, empty, job, tasks, i, id);
  }

  /** A join fails when its parents have more or fewer than two partitions. */
  lemma JoinOfMany(ctx: Context, n: DagNode, a: Result<seq<Partition>, string>, b: Result<seq<Partition>, string>)
    requires n.operator.Join? && (a.Ok? && b.Ok? ==> |a.value| + |b.value| != 2)
    ensures OnBoth(ExecOf(ctx), n, a, b).Err?
  {
  }

  lemma ShuffleBuckets(spec: DagSpecification, ctx: Context, empty: Partition, p: DagNode)
    requires WellFormed(spec) && Find(spec.nodes, p.id) == Some(p) && p.operator.ShuffleByKey?
    ensures Declared(spec.nodes, p.id)
    ensures var out := Eval(spec, ExecOf(ctx), empty, p.id);
            out.Ok? ==> |out.value| == AtLeastOne(p.operator.totalPartitions)
  {
  }

  // ----- a job whose tasks lose its only pair

  /** A file with one JSON line, and who reads it. */
  lemma OneLineFile(s: Pipe, ctx: Context, a: string, u: Value)
    requires s.ops == [] && s.format == "jsonl" && ctx.files(s.uri) == Some(a)
    requires '\n' !in a && a != [] && !ctx.tx.blank(a) && ctx.tx.parseJson(a) == Some(u) && u.Object?
    ensures PipeOutput(s, ctx, 2, 0) == Ok([u]) && PipeOutput(s, ctx, 2, 1) == Ok([]) &&
            PipeOutput(s, ctx, 1, 0) == Ok([u])
  {
    In.LastLine(a, '\n', '\r');
    assert In.AsLines([a]) == [In.Line(a)];
    assert "jsonl" != "csv" by { assert |"jsonl"| != |"csv"|; }
    var x, f := In.Line(a), In.ReadItem(ctx.tx, In.JsonLines);
    assert In.PlanRead(ctx.tx, "jsonl", Some(a)) == Ok(In.Plan([x], In.JsonLines));
    In.PickAll([x]);
    In.PickAppend([], x, 2, 0);
    In.PickAppend([], x, 2, 1);
    assert [] + [x] == [x] && f(x) == Ok([u]) && [] + [u] == [u];
    TraverseAppend([], x, f);
  }

  /** A file with two JSON lines. */
  lemma TwoLineFile(s: Pipe, ctx: Context, a: string, b: string, u: Value, v: Value)
    requires s.ops == [] && s.format == "jsonl" && ctx.files(s.uri) == Some(a + ['\n'] + b)
    requires '\n' !in a && '\n' !in b && b != [] && In.StripLast(a, '\r') == a && !ctx.tx.blank(a) && !ctx.tx.blank(b)
    requires ctx.tx.parseJson(a) == Some(u) && ctx.tx.parseJson(b) == Some(v) && u.Object? && v.Object?
    ensures PipeOutput(s, ctx, 2, 0) == Ok([u]) && PipeOutput(s, ctx, 2, 1) == Ok([v]) &&
            PipeOutput(s, ctx, 1, 0) == Ok([u, v])
  {
    G.TwoLines(ctx.tx, a, b);
    G.PicksOfTwo(In.Line(a), In.Line(b));
    G.ReadOneOrTwo(ctx.tx, a, b, u, v);
  }

  lemma RowsOfOne(rt: Runtime, key: string, u: Value)
    requires J.ToRow(rt, key, u).Ok?
    ensures J.ToRows(rt, key, []) == Ok([]) && J.ToRows(rt, key, [u]) == Ok([J.ToRow(rt, key, u).value])
  {
    assert [u][..0] == [];
    assert [] + [J.ToRow(rt, key, u).value] == [J.ToRow(rt, key, u).value];
  }

  lemma MatchesOfOne(r: J.Row, k: string)
    ensures J.Matches([], k) == []
    ensures J.Matches([r], k) == if r.key == k then [r] else []
  {
    J.MatchesAppend([], r, k);
    assert [] + [r] == [r];
  }

  /** An inner join of one left row. */
  lemma InnerOfOne(l: J.Row, right: seq<J.Row>)
    ensures J.CodeJoin(Inner, [], right) == []
    ensures J.Matches(right, l.key) == [] ==> J.CodeJoin(Inner, [l], right) == []
    ensures forall r :: J.Matches(right, l.key) == [r] ==> J.CodeJoin(Inner, [l], right) == [J.Pair(l, r)]
  {
    assert [l][..0] == [];
    assert Expand([l], J.RowsOf(Inner, right)) == Expand([], J.RowsOf(Inner, right)) + J.RowsFor(Inner, right, l);
    forall r | J.Matches(right, l.key) == [r] ensures J.RowsFor(Inner, right, l) == [J.Pair(l, r)] {
      assert [r][..0] == [];
      assert J.PairAll(l, [r]) == J.PairAll(l, []) + [J.Pair(l, r)];
    }
  }

  lemma InnerExample(rt: Runtime, key: string, u: Value, x: Value, v: Value)
    requires J.ToRow(rt, key, x).Ok? && SameKey(rt, key, u, v) && !SameKey(rt, key, u, x)
    ensures Joined(rt, key, Inner, Ok([u]), Ok([x])) == Ok([]) && Joined(rt, key, Inner, Ok([]), Ok([v])) == Ok([])
    ensures Joined(rt, key, Inner, Ok([u]), Ok([x, v])) ==
            Ok([J.Pair(J.ToRow(rt, key, u).value, J.ToRow(rt, key, v).value)])
  {
    var l, a, b := J.ToRow(rt, key, u).value, J.ToRow(rt, key, x).value, J.ToRow(rt, key, v).value;
    RowsOfOne(rt, key, u);
    RowsOfOne(rt, key, x);
    RowsOfOne(rt, key, v);
    assert [x, v][..1] == [x] && [a] + [b] == [a, b] && J.ToRows(rt, key, [x, v]) == Ok([a, b]);
    MatchesOfOne(a, l.key);
    J.MatchesAppend([a], b, l.key);
    InnerOfOne(l, [a]);
    InnerOfOne(l, [b]);
    InnerOfOne(l, [a, b]);
    assert J.Matches([a, b], l.key) == [b];
  }

  /** One left line with the text `a`, two right lines `c` and `b`, and only `a` and `b` have equal keys. */
  ghost predicate OnePairOfLines(j: JoinJob, ctx: Context, a: string, c: string, b: string, u: Value, x: Value,
                                 v: Value) {
    && j.joinType == Inner && j.left.ops == [] && j.right.ops == []
    && j.left.format == "jsonl" && ctx.files(j.left.uri) == Some(a)
    && j.right.format == "jsonl" && ctx.files(j.right.uri) == Some(c + ['\n'] + b)
    && '\n' !in a && '\n' !in b && '\n' !in c && a != [] && b != [] && In.StripLast(c, '\r') == c
    && !ctx.tx.blank(a) && !ctx.tx.blank(b) && !ctx.tx.blank(c)
    && ctx.tx.parseJson(a) == Some(u) && ctx.tx.parseJson(c) == Some(x) && ctx.tx.parseJson(b) == Some(v)
    && J.ToRow(ctx.rt, j.key, x).Ok? && SameKey(ctx.rt, j.key, u, v) && !SameKey(ctx.rt, j.key, u, x)
  }

  lemma LostPairOutputs(j: JoinJob, ctx: Context, a: string, c: string, b: string, u: Value, x: Value, v: Value)
    requires OnePairOfLines(j, ctx, a, c, b, u, x, v)
    ensures JoinedOutput(j, ctx, 2, 0) == Ok([]) && JoinedOutput(j, ctx, 2, 1) == Ok([])
    ensures JoinedOutput(j, ctx, 1, 0) == Ok([J.Pair(J.ToRow(ctx.rt, j.key, u).value, J.ToRow(ctx.rt, j.key, v).value)])
  {
    OneLineFile(j.left, ctx, a, u);
    TwoLineFile(j.right, ctx, c, b, x, v);
    InnerExample(ctx.rt, j.key, u, x, v);
  }

  lemma JoinTaskGives(spec: DagSpecification, n: nat, j: JoinJob, ctx: Context, empty: Partition, job: Uuid,
                      tasks: seq<Task>, p: nat, recs: seq<Value>)
    requires JoinSpec(spec, j) && PossibleTasks(InParts(spec, n), job, tasks) && p < |tasks| == n
    requires JoinedOutput(j, ctx, n, p) == Ok(recs)
    ensures PlainRecords(ctx, empty, tasks[p]) == Ok(recs)
  {
    InPartsIsJoin(spec, j, n);
    JoinTask(InParts(spec, n), j, ctx, empty, job, tasks, p);
  }

  /**
   One left line whose only partner is the second right line: with two tasks neither of them outputs anything, with
   one task the pair comes out.
   */
  lemma LostPairExample(spec: DagSpecification, j: JoinJob, ctx: Context, empty: Partition, job: Uuid, job1: Uuid,
                        tasks: seq<Task>, single: seq<Task>, a: string, c: string, b: string,
                        u: Value, x: Value, v: Value)
    requires JoinSpec(spec, j) && |tasks| == 2 && |single| == 1
    requires PossibleTasks(InParts(spec, 2), job, tasks) && PossibleTasks(InParts(spec, 1), job1, single)
    requires OnePairOfLines(j, ctx, a, c, b, u, x, v)
    ensures PlainRecords(ctx, empty, tasks[0]) == Ok([]) && PlainRecords(ctx, empty, tasks[1]) == Ok([])
    ensures PlainRecords(ctx, empty, single[0]) ==
            Ok([J.Pair(J.ToRow(ctx.rt, j.key, u).value, J.ToRow(ctx.rt, j.key, v).value)])
  {
    LostPairOutputs(j, ctx, a, c, b, u, x, v);
    JoinTaskGives(spec, 2, j, ctx, empty, job, tasks, 0, []);
    JoinTaskGives(spec, 2, j, ctx, empty, job, tasks, 1, []);
    JoinTaskGives(spec, 1, j, ctx, empty, job1, single, 0, JoinedOutput(j, ctx, 1, 0).value);
  }
}
