/** Dispatch from operator types to operators. */
module Operators {
  import opened Prelude
  import opened Dag
  import opened Pipeline
  import opened Execution
  import opened Values
  import opened Platform
  import opened Buckets
  import opened Transforms
  import S = Shuffle
  import J = Join
  import Res = Residency
  import R = Reduce
  import In = Read

  /** What an operator takes from its surroundings: platform functions, input files, and its task's partition. */
  datatype Context = Context(
    rt: Runtime,
    tx: TextFns,
    files: string -> Option<string>,
    /** The records of a node's groups in the order in which its group map is iterated. */
    hashOrder: (string, seq<Value>) -> seq<Value>,
    total: nat,
    partition: nat)

  /** Iterating a group map lists each group once. */
  ghost predicate OrdersGroups(ctx: Context) {
    forall id, recs :: multiset(ctx.hashOrder(id, recs)) == multiset(recs)
  }

  function AtLeastOne(n: nat): nat {
    if n == 0 then 1 else n
  }

  /** A record-wise operator on each partition. */
  function ApplyAll(tx: TextFns, op: OperatorType, parts: seq<Partition>): Result<seq<Partition>, string>
    requires RecordWise(op)
  {
    if !Builds(tx, op) then Err("invalid predicate")
    else if parts == [] then Ok([])
    else
      match ApplyAll(tx, op, parts[..|parts| - 1])
      case Err(e) => Err(e)
      case Ok(out) =>
        var p := parts[|parts| - 1];
        match Apply(tx, op, p.records)
        case Err(e) => Err(e)
        case Ok(recs) => Ok(out + [Partition(p.id, recs)])
  }

  function ReduceAll(rt: Runtime, raw: string, parts: seq<Partition>): Result<seq<Partition>, string> {
    match R.ParseReducer(raw)
    case None => Err("unknown reducer")
    case Some(kind) =>
      if parts == [] then Ok([])
      else
        var (name, v) := R.Reduced(rt, kind, S.Records(parts));
        Ok([Partition(parts[0].id, [Object(map[name := v])])])
  }

  function ReduceGroups(ctx: Context, id: string, key: string, raw: string, parts: seq<Partition>)
    : Result<seq<Partition>, string>
  {
    if parts == [] then Ok([])
    else
      match R.ParseReducer(raw)
      case None => Err("unsupported reducer")
      case Some(kind) =>
        if !R.AllKeyed(key, S.Records(parts)) then Err("missing key field")
        else Ok([Partition(parts[0].id, ctx.hashOrder(id, R.GroupRecords(ctx.rt, kind, key, S.Records(parts))))])
  }

  /** `Operator::from_type` and `Operator::execute`. */
  function Execute(ctx: Context, id: string, op: OperatorType, parts: seq<Partition>): Result<seq<Partition>, string> {
    match op
    case Read(uri, format) =>
      (match In.ReadPartition(ctx.tx, format, ctx.files(uri), AtLeastOne(ctx.total), ctx.partition)
       case Err(e) => Err(e)
       case Ok(recs) => Ok([Partition(ctx.partition, recs)]))
    case Reduce(raw) => ReduceAll(ctx.rt, raw, parts)
    case Aggregate(raw) => ReduceAll(ctx.rt, raw, parts)
    case ReduceByKey(key, raw) => ReduceGroups(ctx, id, key, raw, parts)
    case Join(key, jt) =>
      (match J.JoinOutcome(ctx.rt, key, jt, parts)
       case Err(_) => Err("join failed")
       case Ok(out) => Ok(out))
    case ShuffleByKey(key, n) => Ok(S.Shuffled(ctx.rt, key, AtLeastOne(n), S.Records(parts)))
    case _ => ApplyAll(ctx.tx, op, parts)
  }

  function ExecOf(ctx: Context): Exec {
    (id, op, parts) => Execute(ctx, id, op, parts)
  }

  /** A read or a shuffle for no partitions works as for one. */
  lemma ZeroIsOne(ctx: Context, id: string, uri: string, format: string, key: string, parts: seq<Partition>)
    ensures Execute(ctx.(total := 0), id, Read(uri, format), parts) ==
            Execute(ctx.(total := 1), id, Read(uri, format), parts)
    ensures Execute(ctx, id, ShuffleByKey(key, 0), parts) == Execute(ctx, id, ShuffleByKey(key, 1), parts)
    ensures Execute(ctx, id, ShuffleByKey(key, 1), parts) == Ok([Partition(0, S.Records(parts))])
  {
    OneBucket(ctx.rt, key, S.Records(parts));
    assert S.Shuffled(ctx.rt, key, 1, S.Records(parts)) == [Partition(0, S.Records(parts))];
  }

  lemma {:induction false} OneBucket(rt: Runtime, key: string, recs: seq<Value>)
    ensures Bucket(recs, S.BucketOf(rt, key, 1), 0) == recs
  {
    if recs != [] {
      OneBucket(rt, key, recs[..|recs| - 1]);
    }
  }

  /** The engine's shuffles never fail on the empty partition, so injected shuffles are harmless. */
  lemma EngineShuffles(ctx: Context, empty: Partition)
    ensures ShuffleTotal(ExecOf(ctx), empty)
  {
  }

  /** The engine's record-wise operators work on one partition after the other, and its reads ignore their inputs. */
  lemma EngineIsEngineLike(ctx: Context)
    ensures Res.EngineLike(ExecOf(ctx))
  {
    forall id, op, parts | RecordWise(op) && |parts| > 0 ensures Res.WorksOneByOne(ExecOf(ctx), id, op, parts) {
      OneMorePartition(ctx.tx, op, parts);
    }
  }

  lemma OneMorePartition(tx: TextFns, op: OperatorType, parts: seq<Partition>)
    requires RecordWise(op) && |parts| > 0
    ensures var made := ApplyAll(tx, op, [parts[|parts| - 1]]);
            ApplyAll(tx, op, parts) == Res.Joined(ApplyAll(tx, op, parts[..|parts| - 1]), made) &&
              (made.Ok? ==> |made.value| == 1)
  {
    var last := [parts[|parts| - 1]];
    assert last[..0] == [];
    if Builds(tx, op) {
      assert ApplyAll(tx, op, last[..0]) == Ok([]);
      var recs := Apply(tx, op, last[0].records);
      if recs.Ok? {
        assert [] + [Partition(last[0].id, recs.value)] == [Partition(last[0].id, recs.value)];
      }
    }
  }
}
