/** A job of the engine's own operators whose read feeds two nodes: the pipeline loses one of the two copies. */
module FanOut {
  import opened Prelude
  import opened Dag
  import opened Ordering
  import opened Planner
  import opened Pipeline
  import opened Execution
  import opened Values
  import opened Transforms
  import opened Operators
  import In = Read

  /** The ids of a read, the two nodes it feeds, and the node they feed. */
  datatype Corners = Corners(r: string, a: string, b: string, c: string)

  ghost predicate Distinct(d: Corners) {
    d.r != d.a && d.r != d.b && d.r != d.c && d.a != d.b && d.a != d.c && d.b != d.c
  }

  function Edges(d: Corners): seq<DagEdge> {
    [DagEdge(d.r, d.a), DagEdge(d.r, d.b), DagEdge(d.a, d.c), DagEdge(d.b, d.c)]
  }

  /** A read that feeds two identities, which feed a third one. */
  function Diamond(d: Corners, read: OperatorType, partitions: nat): DagSpecification {
    DagSpecification(
      [DagNode(d.r, read), DagNode(d.a, Identity), DagNode(d.b, Identity), DagNode(d.c, Identity)],
      Edges(d), partitions)
  }

  lemma DiamondParents(d: Corners)
    requires Distinct(d)
    ensures Parents(Edges(d), d.r) == []
    ensures Parents(Edges(d), d.a) == [d.r]
    ensures Parents(Edges(d), d.b) == [d.r]
    ensures Parents(Edges(d), d.c) == [d.a, d.b]
  {
    var edges := Edges(d);
    NoParents(edges, d.r);
    SingleParent(edges, 0, d.a);
    SingleParent(edges, 1, d.b);
    DoubleParent(edges, 2, 3, d.c);
  }

  lemma DiamondIds(d: Corners, read: OperatorType, n: nat)
    requires Distinct(d)
    ensures Ids(Diamond(d, read, n).nodes) == [d.r, d.a, d.b, d.c] && DistinctIds(Diamond(d, read, n).nodes)
  {
  }

  lemma DiamondForward(d: Corners)
    requires Distinct(d)
    ensures Forward(Edges(d), [d.r, d.a, d.b, d.c]) && NoDup([d.r, d.a, d.b, d.c])
  {
    var ids := [d.r, d.a, d.b, d.c];
    forall i | 0 <= i < 4 ensures PredsIn(Edges(d), ids[i], Elems(ids[..i])) {
      assert i > 0 ==> ids[..i][0] == d.r;
      assert i > 2 ==> ids[..i][1] == d.a && ids[..i][2] == d.b;
    }
  }

  lemma DiamondIsWellFormed(d: Corners, read: OperatorType, n: nat)
    requires Distinct(d)
    ensures var spec := Diamond(d, read, n);
            WellFormed(spec) && TopoOrder(spec, spec.nodes)
  {
    DiamondIds(d, read, n);
    DiamondEnds(d);
    DiamondForward(d);
    ForwardIsAcyclic(Edges(d), [d.r, d.a, d.b, d.c]);
  }

  lemma DiamondEnds(d: Corners)
    ensures forall e :: e in Edges(d) ==> e.src in [d.r, d.a, d.b, d.c] && e.dst in [d.r, d.a, d.b, d.c]
  {
  }

  lemma DiamondSink(d: Corners, read: OperatorType, n: nat)
    requires Distinct(d)
    ensures SingleSink(Diamond(d, read, n), d.c)
  {
    var edges := Edges(d);
    DiamondIds(d, read, n);
    assert d.c == [d.r, d.a, d.b, d.c][3];
    assert edges[0] in edges && edges[2] in edges && edges[3] in edges;
  }

  /** A read that yields one partition, and identities. */
  ghost predicate ReadsAndCopies(exec: Exec, empty: Partition, d: Corners, read: OperatorType, p: Partition) {
    exec(d.r, read, [empty]) == Ok([p]) && forall id, parts :: exec(id, Identity, parts) == Ok(parts)
  }

  /** The four iterations: the first identity takes the read's result, and the second one is given nothing. */
  lemma DiamondSteps(exec: Exec, empty: Partition, d: Corners, read: OperatorType, p: Partition)
    requires Distinct(d) && ReadsAndCopies(exec, empty, d, read, p)
    ensures Step(exec, empty, map[], Stage(d.r, read, [])) == Ok(map[d.r := [p]])
    ensures Step(exec, empty, map[d.r := [p]], Stage(d.a, Identity, [d.r])) == Ok(map[d.a := [p]])
    ensures Step(exec, empty, map[d.a := [p]], Stage(d.b, Identity, [d.r])) == Ok(map[d.a := [p], d.b := []])
    ensures Step(exec, empty, map[d.a := [p], d.b := []], Stage(d.c, Identity, [d.a, d.b])) == Ok(map[d.c := [p]])
  {
    GatherOne(d.r, map[d.r := [p]]);
    GatherOne(d.r, map[d.a := [p]]);
    GatherBoth(d.a, d.b, map[d.a := [p], d.b := []]);
    assert [p] + [] == [p];
    assert map[d.r := [p]] - {d.r} == map[];
    assert map[d.a := [p], d.b := []] - {d.a} - {d.b} == map[];
  }

  lemma DiamondRun(exec: Exec, empty: Partition, d: Corners, read: OperatorType, n: nat, p: Partition)
    requires Distinct(d) && ReadsAndCopies(exec, empty, d, read, p)
    ensures Run(exec, empty, StagesFor(Edges(d), Diamond(d, read, n).nodes), d.c) == Ok([p])
  {
    var nodes, edges := Diamond(d, read, n).nodes, Edges(d);
    DiamondParents(d);
    DiamondSteps(exec, empty, d, read, p);
    RunOfFour(exec, empty, edges, nodes, map[d.r := [p]], map[d.a := [p]], map[d.a := [p], d.b := []], map[d.c := [p]]);
  }

  /** A run of four stages, one after the other. */
  lemma RunOfFour(exec: Exec, empty: Partition, edges: seq<DagEdge>, nodes: seq<DagNode>, m1: Results, m2: Results,
                  m3: Results, m4: Results)
    requires |nodes| == 4 && Step(exec, empty, map[], StageOf(edges, nodes[0])) == Ok(m1)
    requires Step(exec, empty, m1, StageOf(edges, nodes[1])) == Ok(m2)
    requires Step(exec, empty, m2, StageOf(edges, nodes[2])) == Ok(m3)
    requires Step(exec, empty, m3, StageOf(edges, nodes[3])) == Ok(m4)
    ensures RunStages(exec, empty, StagesFor(edges, nodes)) == Ok(m4)
  {
    assert RunStages(exec, empty, StagesFor(edges, nodes[..0])) == Ok(map[]);
    RunNext(exec, empty, edges, nodes, 0, map[], m1);
    RunNext(exec, empty, edges, nodes, 1, m1, m2);
    RunNext(exec, empty, edges, nodes, 2, m2, m3);
    RunNext(exec, empty, edges, nodes, 3, m3, m4);
    assert nodes[..4] == nodes;
  }

  lemma RunNext(exec: Exec, empty: Partition, edges: seq<DagEdge>, nodes: seq<DagNode>, k: nat, before: Results,
                after: Results)
    requires k < |nodes| && RunStages(exec, empty, StagesFor(edges, nodes[..k])) == Ok(before)
    requires Step(exec, empty, before, StageOf(edges, nodes[k])) == Ok(after)
    ensures RunStages(exec, empty, StagesFor(edges, nodes[..k + 1])) == Ok(after)
  {
    RunAppend(exec, empty, edges, nodes[..k], nodes[k]);
    TakeNext(nodes, k);
  }

  lemma DiamondNode(d: Corners, read: OperatorType, n: nat, i: nat)
    requires Distinct(d) && i < 4
    ensures var nodes := Diamond(d, read, n).nodes;
            Declared(nodes, nodes[i].id) && Find(nodes, nodes[i].id) == Some(nodes[i])
  {
    var nodes := Diamond(d, read, n).nodes;
    DiamondIds(d, read, n);
    FindDistinct(nodes, nodes[i]);
  }

  lemma CopyEval(exec: Exec, empty: Partition, d: Corners, read: OperatorType, n: nat, p: Partition, id: string)
    requires Distinct(d) && ReadsAndCopies(exec, empty, d, read, p) && WellFormed(Diamond(d, read, n))
    requires id == d.a || id == d.b
    ensures Declared(Diamond(d, read, n).nodes, id) && Eval(Diamond(d, read, n), exec, empty, id) == Ok([p])
  {
    DiamondParents(d);
    DiamondNode(d, read, n, if id == d.a then 1 else 2);
    ReadEval(exec, empty, d, read, n, p);
    OneCopy(Diamond(d, read, n), exec, empty, id, d.r, p);
  }

  lemma OneCopy(spec: DagSpecification, exec: Exec, empty: Partition, id: string, r: string, p: Partition)
    requires WellFormed(spec) && Declared(spec.nodes, id) && Declared(spec.nodes, r)
    requires Parents(spec.edges, id) == [r] && Find(spec.nodes, id) == Some(DagNode(id, Identity))
    requires Eval(spec, exec, empty, r) == Ok([p]) && exec(id, Identity, [p]) == Ok([p])
    ensures Eval(spec, exec, empty, id) == Ok([p])
  {
    OneParent(spec, exec, empty, id, r, DagNode(id, Identity));
  }

  lemma ReadEval(exec: Exec, empty: Partition, d: Corners, read: OperatorType, n: nat, p: Partition)
    requires Distinct(d) && ReadsAndCopies(exec, empty, d, read, p) && WellFormed(Diamond(d, read, n))
    ensures Declared(Diamond(d, read, n).nodes, d.r) && Eval(Diamond(d, read, n), exec, empty, d.r) == Ok([p])
  {
    DiamondParents(d);
    DiamondNode(d, read, n, 0);
    NoParent(Diamond(d, read, n), exec, empty, d.r, DagNode(d.r, read));
  }

  lemma BothCopies(spec: DagSpecification, exec: Exec, empty: Partition, d: Corners, p: Partition)
    requires WellFormed(spec) && Declared(spec.nodes, d.c) && Declared(spec.nodes, d.a) && Declared(spec.nodes, d.b)
    requires Parents(spec.edges, d.c) == [d.a, d.b] && Find(spec.nodes, d.c) == Some(DagNode(d.c, Identity))
    requires Eval(spec, exec, empty, d.a) == Ok([p]) && Eval(spec, exec, empty, d.b) == Ok([p])
    requires exec(d.c, Identity, [p, p]) == Ok([p, p])
    ensures Eval(spec, exec, empty, d.c) == Ok([p, p])
  {
    TwoParents(spec, exec, empty, d.c, d.a, d.b, DagNode(d.c, Identity));
    assert [p] + [p] == [p, p];
  }

  /** The meaning: both identities yield the read's partition. */
  lemma DiamondEval(exec: Exec, empty: Partition, d: Corners, read: OperatorType, n: nat, p: Partition)
    requires Distinct(d) && ReadsAndCopies(exec, empty, d, read, p) && WellFormed(Diamond(d, read, n))
    ensures Declared(Diamond(d, read, n).nodes, d.c) && Eval(Diamond(d, read, n), exec, empty, d.c) == Ok([p, p])
  {
    CopyEval(exec, empty, d, read, n, p, d.a);
    CopyEval(exec, empty, d, read, n, p, d.b);
    DiamondParents(d);
    DiamondNode(d, read, n, 3);
    BothCopies(Diamond(d, read, n), exec, empty, d, p);
  }

  lemma {:induction false} IdentityTraverses(tx: TextFns, recs: seq<Value>)
    ensures Apply(tx, Identity, recs) == Ok(recs)
  {
    if recs == [] {
    } else {
      var init, last := recs[..|recs| - 1], recs[|recs| - 1];
      IdentityTraverses(tx, init);
      IdentityKeeps(tx, last);
      assert recs == init + [last];
      assert Kernel(tx, Identity)(last) == Ok([last]);
    }
  }

  lemma {:induction false} IdentityCopies(tx: TextFns, parts: seq<Partition>)
    ensures ApplyAll(tx, Identity, parts) == Ok(parts)
  {
    if parts == [] {
    } else {
      var init, last := parts[..|parts| - 1], parts[|parts| - 1];
      IdentityCopies(tx, init);
      IdentityTraverses(tx, last.records);
      assert parts == init + [Partition(last.id, last.records)];
    }
  }

  /** Whenever the read succeeds, the engine returns its partition once where the graph means it twice. */
  lemma FanOutLosesACopy(ctx: Context, empty: Partition, d: Corners, uri: string, format: string)
    requires Distinct(d)
    requires In.ReadPartition(ctx.tx, format, ctx.files(uri), AtLeastOne(ctx.total), ctx.partition).Ok?
    ensures var spec := Diamond(d, Read(uri, format), ctx.total);
            var p := Partition(ctx.partition, In.ReadPartition(ctx.tx, format, ctx.files(uri), AtLeastOne(ctx.total),
                                                               ctx.partition).value);
            && WellFormed(spec) && TopoOrder(spec, spec.nodes) && SingleSink(spec, d.c)
            && Run(ExecOf(ctx), empty, StagesFor(spec.edges, spec.nodes), d.c) == Ok([p])
            && Eval(spec, ExecOf(ctx), empty, d.c) == Ok([p, p])
  {
    var read := Read(uri, format);
    var p := Partition(ctx.partition,
                       In.ReadPartition(ctx.tx, format, ctx.files(uri), AtLeastOne(ctx.total), ctx.partition).value);
    EngineReadsAndCopies(ctx, empty, d, uri, format, p);
    DiamondIsWellFormed(d, read, ctx.total);
    DiamondSink(d, read, ctx.total);
    DiamondRun(ExecOf(ctx), empty, d, read, ctx.total, p);
    DiamondEval(ExecOf(ctx), empty, d, read, ctx.total, p);
  }

  lemma EngineReadsAndCopies(ctx: Context, empty: Partition, d: Corners, uri: string, format: string, p: Partition)
    requires In.ReadPartition(ctx.tx, format, ctx.files(uri), AtLeastOne(ctx.total), ctx.partition) == Ok(p.records)
    requires p.id == ctx.partition
    ensures ReadsAndCopies(ExecOf(ctx), empty, d, Read(uri, format), p)
  {
    forall id, parts ensures ExecOf(ctx)(id, Identity, parts) == Ok(parts) {
      IdentityCopies(ctx.tx, parts);
    }
  }
}
