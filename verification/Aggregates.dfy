/** Per-task counts and sums add up across read partitions. */
module Aggregates {
  import opened Prelude
  import opened Dag
  import opened Values
  import opened Platform
  import opened Buckets
  import opened Transforms
  import opened Read
  import opened Reduce

  // ----- weighted sums

  function Weight(recs: seq<Value>, w: Value -> real): real {
    if recs == [] then 0.0 else Weight(recs[..|recs| - 1], w) + w(recs[|recs| - 1])
  }

  function SumReal(n: nat, g: nat -> real): real {
    if n == 0 then 0.0 else SumReal(n - 1, g) + g(n - 1)
  }

  lemma {:induction false} SumRealExt(n: nat, g: nat -> real, h: nat -> real)
    requires forall p :: 0 <= p < n ==> g(p) == h(p)
    ensures SumReal(n, g) == SumReal(n, h)
  {
    if n == 0 {
    } else {
      SumRealExt(n - 1, g, h);
    }
  }

  lemma {:induction false} SumRealZero(n: nat, g: nat -> real)
    requires forall p :: 0 <= p < n ==> g(p) == 0.0
    ensures SumReal(n, g) == 0.0
  {
    if n == 0 {
    } else {
      SumRealZero(n - 1, g);
    }
  }

  lemma {:induction false} SumRealUpdate(n: nat, g: nat -> real, h: nat -> real, at: nat, extra: real)
    requires forall p :: 0 <= p < n ==> h(p) == if p == at then g(p) + extra else g(p)
    ensures SumReal(n, h) == if at < n then SumReal(n, g) + extra else SumReal(n, g)
  {
    if n == 0 {
    } else {
      SumRealUpdate(n - 1, g, h, at, extra);
    }
  }

  lemma {:induction false} WeightConcat(a: seq<Value>, b: seq<Value>, w: Value -> real)
    ensures Weight(a + b, w) == Weight(a, w) + Weight(b, w)
  {
    if b == [] {
      assert a + b == a;
    } else {
      assert (a + b)[..|a + b| - 1] == a + b[..|b| - 1];
      WeightConcat(a, b[..|b| - 1], w);
    }
  }

  lemma WeightOne(x: Value, w: Value -> real)
    ensures Weight([x], w) == w(x)
  {
    assert [x][..0] == [];
  }

  lemma WeightMiddle(a: seq<Value>, x: Value, b: seq<Value>, w: Value -> real)
    ensures Weight((a + [x]) + b, w) == Weight(a + b, w) + w(x)
  {
    WeightConcat(a + [x], b, w);
    WeightConcat(a, [x], w);
    WeightConcat(a, b, w);
    WeightOne(x, w);
  }

  lemma {:induction false} WeightPermuted(a: seq<Value>, b: seq<Value>, w: Value -> real)
    requires multiset(a) == multiset(b)
    ensures Weight(a, w) == Weight(b, w)
    decreases |a|
  {
    if a == [] {
      assert |b| == |multiset(b)| == 0;
    } else {
      var x, rest := a[0], a[1..];
      assert a == [x] + rest && a == ([] + [x]) + rest && [] + rest == rest;
      var before, after := SplitAt(x, rest, b);
      WeightMiddle([], x, rest, w);
      WeightMiddle(before, x, after, w);
      WeightPermuted(rest, before + after, w);
    }
  }

  function WeightPerPick<A>(s: seq<A>, n: nat, f: A -> seq<Value>, w: Value -> real): nat -> real
    requires n > 0
  {
    (p: nat) => Weight(Expand(Pick(s, n, p), f), w)
  }

  lemma WeightOfPick<A>(s: seq<A>, x: A, n: nat, p: nat, f: A -> seq<Value>, w: Value -> real)
    requires n > 0
    ensures Weight(Expand(Pick(s + [x], n, p), f), w) ==
            Weight(Expand(Pick(s, n, p), f), w) + (if p == |s| % n then Weight(f(x), w) else 0.0)
  {
    PickAppend(s, x, n, p);
    if p == |s| % n {
      ExpandConcat(Pick(s, n, p), [x], f);
      assert Expand([x], f) == f(x);
      WeightConcat(Expand(Pick(s, n, p), f), f(x), w);
    } else {
      assert Pick(s, n, p) + [] == Pick(s, n, p);
    }
  }

  /** A weighted sum splits over the read partitions. */
  lemma {:induction false} WeightByPick<A>(s: seq<A>, n: nat, f: A -> seq<Value>, w: Value -> real)
    requires n > 0
    ensures SumReal(n, WeightPerPick(s, n, f, w)) == Weight(Expand(s, f), w)
  {
    var g := WeightPerPick(s, n, f, w);
    if s == [] {
      SumRealZero(n, g);
    } else {
      var init, x := s[..|s| - 1], s[|s| - 1];
      var g0, at := WeightPerPick(init, n, f, w), |init| % n;
      assert s == init + [x];
      WeightByPick(init, n, f, w);
      forall p: nat | p < n ensures g(p) == if p == at then g0(p) + Weight(f(x), w) else g0(p) {
        WeightOfPick(init, x, n, p, f, w);
      }
      SumRealUpdate(n, g0, g, at, Weight(f(x), w));
      WeightConcat(Expand(init, f), f(x), w);
    }
  }

  // ----- what an output says about a key

  /** Integers convert exactly, floats convert back, and addition is exact. */
  ghost predicate Exact(rt: Runtime) {
    && (forall i :: rt.asReal(Integer(i)) == i as real)
    && (forall x :: rt.asReal(rt.fromReal(x)) == x)
    && (forall a, b :: rt.add(a, b) == a + b)
  }

  predicate Additive(kind: ReducerKind) {
    kind.Count? || kind.Sum?
  }

  /** The output field of a counting or summing reducer. */
  function OutputField(kind: ReducerKind): string
    requires Additive(kind)
  {
    if kind.Count? then "count" else FieldName("sum", kind.field)
  }

  /** The aggregate an output record reports for key value `k`, zero if it is about another key. */
  function Reported(rt: Runtime, key: string, k: string, name: string): Value -> real {
    (rec: Value) =>
      if rec.Object? && key in rec.fields && rec.fields[key] == Str(k) && name in rec.fields && rec.fields[name].Num?
      then rt.asReal(rec.fields[name].n) else 0.0
  }

  /** What one input record contributes to the aggregate of `k`. */
  function Contribution(rt: Runtime, kind: ReducerKind, key: string, k: string): Value -> real
    requires Additive(kind)
  {
    (rec: Value) => if GroupKey(key, rec) == Some(k) then Amount(rt, kind, rec) else 0.0
  }

  function Amount(rt: Runtime, kind: ReducerKind, rec: Value): real
    requires Additive(kind)
  {
    if kind.Count? then 1.0
    else match ExtractNumber(rt, rec, kind.field) case None => 0.0 case Some(x) => x
  }

  function Amounts(rt: Runtime, kind: ReducerKind): Value -> real
    requires Additive(kind)
  {
    (rec: Value) => Amount(rt, kind, rec)
  }

  lemma {:induction false} FoldIsSum(rt: Runtime, field: Option<string>, recs: seq<Value>)
    requires Exact(rt)
    ensures var (acc, count) := FoldNumeric(rt, recs, field, rt.add);
            (if count == 0 then 0.0 else acc) == Weight(recs, Amounts(rt, Sum(field)))
  {
    if recs == [] {
    } else {
      FoldIsSum(rt, field, recs[..|recs| - 1]);
    }
  }

  lemma {:induction false} CountIsSum(rt: Runtime, recs: seq<Value>)
    ensures |recs| as real == Weight(recs, Amounts(rt, Count))
  {
    if recs == [] {
    } else {
      CountIsSum(rt, recs[..|recs| - 1]);
    }
  }

  lemma {:induction false} GroupWeight(rt: Runtime, kind: ReducerKind, key: string, k: string, recs: seq<Value>)
    requires Additive(kind)
    ensures Weight(Group(key, k, recs), Amounts(rt, kind)) == Weight(recs, Contribution(rt, kind, key, k))
  {
    if recs == [] {
    } else {
      var init, last := recs[..|recs| - 1], recs[|recs| - 1];
      GroupWeight(rt, kind, key, k, init);
      WeightConcat(Group(key, k, init), if GroupKey(key, last) == Some(k) then [last] else [], Amounts(rt, kind));
    }
  }

  /** The record of group `k` reports the total contribution of its records. */
  lemma GroupReports(rt: Runtime, kind: ReducerKind, key: string, k: string, recs: seq<Value>)
    requires Exact(rt) && Additive(kind) && key != OutputField(kind)
    ensures Reported(rt, key, k, OutputField(kind))(GroupRecord(rt, kind, key, k, Group(key, k, recs))) ==
            Weight(recs, Contribution(rt, kind, key, k))
  {
    GroupWeight(rt, kind, key, k, recs);
    if kind.Count? {
      CountIsSum(rt, Group(key, k, recs));
    } else {
      FoldIsSum(rt, kind.field, Group(key, k, recs));
    }
  }

  /** The record of group `j` contributes to the report about `k` only when `j` is `k`. */
  lemma GroupReportsOwnKey(rt: Runtime, kind: ReducerKind, key: string, k: string, j: string, recs: seq<Value>)
    requires Exact(rt) && Additive(kind) && key != OutputField(kind)
    ensures Weight(RecordOf(rt, kind, key, recs)(j), Reported(rt, key, k, OutputField(kind))) ==
            if j == k then Weight(recs, Contribution(rt, kind, key, k)) else 0.0
  {
    var rec := GroupRecord(rt, kind, key, j, Group(key, j, recs));
    WeightOne(rec, Reported(rt, key, k, OutputField(kind)));
    if j == k {
      GroupReports(rt, kind, key, k, recs);
    } else {
      assert rec.fields[key] == Str(j);
    }
  }

  lemma {:induction false} ReportedOverKeys(rt: Runtime, kind: ReducerKind, key: string, k: string, recs: seq<Value>,
                                            keys: seq<string>)
    requires Exact(rt) && Additive(kind) && key != OutputField(kind) && NoDup(keys)
    ensures Weight(Expand(keys, RecordOf(rt, kind, key, recs)), Reported(rt, key, k, OutputField(kind))) ==
            if k in keys then Weight(recs, Contribution(rt, kind, key, k)) else 0.0
  {
    if keys == [] {
    } else {
      var init, last := keys[..|keys| - 1], keys[|keys| - 1];
      assert keys == init + [last];
      ReportedOverKeys(rt, kind, key, k, recs, init);
      var f := RecordOf(rt, kind, key, recs);
      WeightConcat(Expand(init, f), f(last), Reported(rt, key, k, OutputField(kind)));
      GroupReportsOwnKey(rt, kind, key, k, last, recs);
    }
  }

  lemma {:induction false} NoGroupNoWeight(rt: Runtime, kind: ReducerKind, key: string, k: string, recs: seq<Value>)
    requires Additive(kind) && Group(key, k, recs) == []
    ensures Weight(recs, Contribution(rt, kind, key, k)) == 0.0
  {
    GroupWeight(rt, kind, key, k, recs);
  }

  /** Whatever its record order, an output reports for `k` the total contribution of the input. */
  lemma OutputReports(rt: Runtime, kind: ReducerKind, key: string, k: string, recs: seq<Value>, out: seq<Value>)
    requires Exact(rt) && Additive(kind) && key != OutputField(kind)
    requires multiset(out) == multiset(GroupRecords(rt, kind, key, recs))
    ensures Weight(out, Reported(rt, key, k, OutputField(kind))) == Weight(recs, Contribution(rt, kind, key, k))
  {
    GroupKeysFacts(key, recs);
    ReportedOverKeys(rt, kind, key, k, recs, GroupKeys(key, recs));
    WeightPermuted(out, GroupRecords(rt, kind, key, recs), Reported(rt, key, k, OutputField(kind)));
    if k !in GroupKeys(key, recs) {
      NoGroupNoWeight(rt, kind, key, k, recs);
    }
  }

  /** Outputs of reducing what each of the n tasks has read and transformed. */
  ghost predicate TaskReductions(rt: Runtime, tx: TextFns, format: string, file: Option<string>, ops: seq<OperatorType>,
                                 kind: ReducerKind, key: string, outs: seq<seq<Value>>)
    requires |outs| > 0 && ChainOps(ops)
  {
    forall p :: 0 <= p < |outs| ==>
      var recs := TaskOutput(tx, format, file, ops, |outs|, p);
      recs.Ok? && multiset(outs[p]) == multiset(GroupRecords(rt, kind, key, recs.value))
  }

  function ReportedPerTask(rt: Runtime, key: string, k: string, name: string, outs: seq<seq<Value>>): nat -> real {
    (p: nat) => if p < |outs| then Weight(outs[p], Reported(rt, key, k, name)) else 0.0
  }

  /** A key field with the name of the aggregate is overwritten by it, so no output says whose aggregate it holds. */
  lemma {:induction false} OverwrittenKey(rt: Runtime, key: string, k: string, out: seq<Value>)
    ensures Weight(out, Reported(rt, key, k, key)) == 0.0
  {
    if out == [] {
    } else {
      OverwrittenKey(rt, key, k, out[..|out| - 1]);
    }
  }

  /**
   Per-task counts and sums of every key add up to those of the single-partition run; where the aggregate
   overwrites the key field, both are zero.
   */
  lemma PartialAggregatesAddUp(rt: Runtime, tx: TextFns, format: string, file: Option<string>, ops: seq<OperatorType>,
                               kind: ReducerKind, key: string, k: string, outs: seq<seq<Value>>, whole: seq<Value>)
    requires Exact(rt) && Additive(kind)
    requires |outs| > 0 && ChainOps(ops) && TaskReductions(rt, tx, format, file, ops, kind, key, outs)
    requires TaskReductions(rt, tx, format, file, ops, kind, key, [whole])
    ensures SumReal(|outs|, ReportedPerTask(rt, key, k, OutputField(kind), outs)) ==
            Weight(whole, Reported(rt, key, k, OutputField(kind)))
  {
    if key == OutputField(kind) {
      OverwrittenKey(rt, key, k, whole);
      forall p: nat | p < |outs| ensures ReportedPerTask(rt, key, k, key, outs)(p) == 0.0 {
        OverwrittenKey(rt, key, k, outs[p]);
      }
      SumRealZero(|outs|, ReportedPerTask(rt, key, k, key, outs));
    } else {
      DistinctFieldsAddUp(rt, tx, format, file, ops, kind, key, k, outs, whole);
    }
  }

  lemma DistinctFieldsAddUp(rt: Runtime, tx: TextFns, format: string, file: Option<string>, ops: seq<OperatorType>,
                            kind: ReducerKind, key: string, k: string, outs: seq<seq<Value>>, whole: seq<Value>)
    requires Exact(rt) && Additive(kind) && key != OutputField(kind)
    requires |outs| > 0 && ChainOps(ops) && TaskReductions(rt, tx, format, file, ops, kind, key, outs)
    requires TaskReductions(rt, tx, format, file, ops, kind, key, [whole])
    ensures SumReal(|outs|, ReportedPerTask(rt, key, k, OutputField(kind), outs)) ==
            Weight(whole, Reported(rt, key, k, OutputField(kind)))
  {
    var n, w := |outs|, Contribution(rt, kind, key, k);
    assert [whole][0] == whole;
    TaskSplit(tx, format, file, ops, 1, 0);
    var plan := PlanRead(tx, format, file).value;
    var f := ItemRecords(tx, plan.mode, ops);
    PickAll(plan.items);
    OutputReports(rt, kind, key, k, TaskOutput(tx, format, file, ops, 1, 0).value, whole);
    WeightByPick(plan.items, n, f, w);
    forall p: nat | p < n
      ensures ReportedPerTask(rt, key, k, OutputField(kind), outs)(p) == WeightPerPick(plan.items, n, f, w)(p)
    {
      TaskSplit(tx, format, file, ops, n, p);
      OutputReports(rt, kind, key, k, TaskOutput(tx, format, file, ops, n, p).value, outs[p]);
    }
    SumRealExt(n, ReportedPerTask(rt, key, k, OutputField(kind), outs), WeightPerPick(plan.items, n, f, w));
  }
}
