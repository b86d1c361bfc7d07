/** What reducers report, told from their texts and the input records alone. */
module Reducers {
  import opened Prelude
  import opened Dag
  import opened Values
  import opened Platform
  import opened Buckets
  import opened Operators
  import S = Shuffle
  import R = Reduce

  // ----- the vocabulary

  /** A reducer text: an operation, or an operation on a field. */
  function Reducer(op: string, field: Option<string>): string {
    if field.None? then op else op + ":" + field.value
  }

  /** The name of the output field. */
  function Output(op: string, field: Option<string>): string {
    if field.None? then op else op + "_" + field.value
  }

  ghost predicate Known(raw: string) {
    || raw == "count" || raw == "collect"
    || exists field :: raw == Reducer("sum", field) || raw == Reducer("min", field) || raw == Reducer("max", field)
  }

  /** `x` is the number `rec` has in the field, or is. */
  ghost predicate IsNumber(rt: Runtime, rec: Value, field: Option<string>, x: real) {
    match field
    case None => rec.Num? && x == rt.asReal(rec.n)
    case Some(f) => rec.Object? && f in rec.fields && rec.fields[f].Num? && x == rt.asReal(rec.fields[f].n)
  }

  ghost predicate Among(rt: Runtime, recs: seq<Value>, field: Option<string>, x: real) {
    exists r :: r in recs && IsNumber(rt, r, field, x)
  }

  /** The least number, or zero if there is none. */
  ghost predicate IsLeast(rt: Runtime, recs: seq<Value>, field: Option<string>, x: real) {
    if Among(rt, recs, field, x) then forall y :: Among(rt, recs, field, y) ==> x <= y
    else x == 0.0 && forall y :: !Among(rt, recs, field, y)
  }

  ghost predicate IsGreatest(rt: Runtime, recs: seq<Value>, field: Option<string>, x: real) {
    if Among(rt, recs, field, x) then forall y :: Among(rt, recs, field, y) ==> x >= y
    else x == 0.0 && forall y :: !Among(rt, recs, field, y)
  }


  /** The sum of the numbers of the records that have one. */
  ghost predicate IsTotal(rt: Runtime, recs: seq<Value>, field: Option<string>, x: real) {
    if recs == [] then x == 0.0
    else
      var init, last := recs[..|recs| - 1], recs[|recs| - 1];
      || (exists n :: IsNumber(rt, last, field, n) && IsTotal(rt, init, field, x - n))
      || ((forall n :: !IsNumber(rt, last, field, n)) && IsTotal(rt, init, field, x))
  }

  /** Float minimum, maximum and addition as on the reals. */
  ghost predicate RealArithmetic(rt: Runtime) {
    && (forall a, b :: rt.min(a, b) == if a <= b then a else b)
    && (forall a, b :: rt.max(a, b) == if a >= b then a else b)
    && (forall a, b :: rt.add(a, b) == a + b)
  }

  ghost predicate Reports(rt: Runtime, v: Value, x: real) {
    v == Num(rt.fromReal(x))
  }

  /** What the reducer `raw` makes of `recs`: the value `v` under `name`. */
  ghost predicate IsReduction(rt: Runtime, raw: string, recs: seq<Value>, name: string, v: Value) {
    && (raw == "count" ==> name == "count" && v == Num(Integer(|recs|)))
    && (raw == "collect" ==> name == "collect" && v == Array(recs))
    && (forall field :: raw == Reducer("sum", field) ==>
          name == Output("sum", field) && exists x :: Reports(rt, v, x) && IsTotal(rt, recs, field, x))
    && (forall field :: raw == Reducer("min", field) ==>
          name == Output("min", field) && exists x :: Reports(rt, v, x) && IsLeast(rt, recs, field, x))
    && (forall field :: raw == Reducer("max", field) ==>
          name == Output("max", field) && exists x :: Reports(rt, v, x) && IsGreatest(rt, recs, field, x))
  }

  // ----- texts

  lemma ParseNamed(op: string, field: Option<string>)
    requires op == "sum" || op == "min" || op == "max"
    ensures R.ParseReducer(Reducer(op, field)) ==
            Some(if op == "sum" then R.Sum(field) else if op == "min" then R.Min(field) else R.Max(field))
  {
    var raw := Reducer(op, field);
    var at := FirstOf(raw, ':');
    assert raw[0] == op[0] && op[0] != 'c';
    if field.None? {
      assert at == |raw| && raw[..at] == raw;
    } else {
      assert raw[|op|] == ':';
      assert forall i :: 0 <= i < |op| ==> raw[i] == op[i] && op[i] != ':';
      assert at == |op|;
      assert raw[..at] == op && raw[at + 1..] == field.value;
    }
  }

  lemma KnownIff(raw: string)
    ensures R.ParseReducer(raw).Some? <==> Known(raw)
  {
    if Known(raw) && raw != "count" && raw != "collect" {
      var field :| raw == Reducer("sum", field) || raw == Reducer("min", field) || raw == Reducer("max", field);
      ParseNamed("sum", field);
      ParseNamed("min", field);
      ParseNamed("max", field);
    }
    if R.ParseReducer(raw).Some? && raw != "count" && raw != "collect" {
      var at := FirstOf(raw, ':');
      var op, field := raw[..at], if at < |raw| then Some(raw[at + 1..]) else None;
      assert raw == Reducer(op, field);
    }
  }

  // ----- folds

  lemma NumberOf(rt: Runtime, rec: Value, field: Option<string>)
    ensures forall x :: IsNumber(rt, rec, field, x) <==> R.ExtractNumber(rt, rec, field) == Some(x)
  {
  }

  lemma {:induction false} NumbersAre(rt: Runtime, recs: seq<Value>, field: Option<string>, x: real)
    ensures x in R.Numbers(rt, recs, field) <==> Among(rt, recs, field, x)
  {
    if recs != [] {
      var init, last := recs[..|recs| - 1], recs[|recs| - 1];
      assert recs == init + [last];
      NumbersAre(rt, init, field, x);
      NumberOf(rt, last, field);
    }
  }

  function AtMost(): (real, real) -> bool {
    (a: real, b: real) => a <= b
  }

  function AtLeast(): (real, real) -> bool {
    (a: real, b: real) => a >= b
  }

  lemma LeastOfFold(rt: Runtime, recs: seq<Value>, field: Option<string>)
    requires RealArithmetic(rt)
    ensures var (acc, count) := R.FoldNumeric(rt, recs, field, rt.min);
            IsLeast(rt, recs, field, if count == 0 then 0.0 else acc)
  {
    R.FoldIsExtreme(rt, recs, field, rt.min, AtMost());
    forall x ensures x in R.Numbers(rt, recs, field) <==> Among(rt, recs, field, x) {
      NumbersAre(rt, recs, field, x);
    }
  }

  lemma GreatestOfFold(rt: Runtime, recs: seq<Value>, field: Option<string>)
    requires RealArithmetic(rt)
    ensures var (acc, count) := R.FoldNumeric(rt, recs, field, rt.max);
            IsGreatest(rt, recs, field, if count == 0 then 0.0 else acc)
  {
    R.FoldIsExtreme(rt, recs, field, rt.max, AtLeast());
    forall x ensures x in R.Numbers(rt, recs, field) <==> Among(rt, recs, field, x) {
      NumbersAre(rt, recs, field, x);
    }
  }

  lemma {:induction false} TotalOfFold(rt: Runtime, recs: seq<Value>, field: Option<string>)
    requires RealArithmetic(rt)
    ensures var (acc, count) := R.FoldNumeric(rt, recs, field, rt.add);
            (count == 0 ==> acc == 0.0) && IsTotal(rt, recs, field, acc)
  {
    if recs != [] {
      var init, last := recs[..|recs| - 1], recs[|recs| - 1];
      TotalOfFold(rt, init, field);
      NumberOf(rt, last, field);
      var (before, _) := R.FoldNumeric(rt, init, field, rt.add);
      var (after, _) := R.FoldNumeric(rt, recs, field, rt.add);
      var n := R.ExtractNumber(rt, last, field);
      if n.Some? {
        assert after == before + n.value;
        assert IsNumber(rt, last, field, n.value) && after - n.value == before;
      }
    }
  }

  lemma SumReports(rt: Runtime, recs: seq<Value>, field: Option<string>)
    requires RealArithmetic(rt)
    ensures R.ParseReducer(Reducer("sum", field)).Some?
    ensures var (name, v) := R.Reduced(rt, R.ParseReducer(Reducer("sum", field)).value, recs);
            name == Output("sum", field) && exists x :: Reports(rt, v, x) && IsTotal(rt, recs, field, x)
  {
    ParseNamed("sum", field);
    TotalOfFold(rt, recs, field);
    var (acc, count) := R.FoldNumeric(rt, recs, field, rt.add);
    assert Reports(rt, R.FoldedNumber(rt, recs, field, rt.add), if count == 0 then 0.0 else acc);
  }

  lemma MinReports(rt: Runtime, recs: seq<Value>, field: Option<string>)
    requires RealArithmetic(rt)
    ensures R.ParseReducer(Reducer("min", field)).Some?
    ensures var (name, v) := R.Reduced(rt, R.ParseReducer(Reducer("min", field)).value, recs);
            name == Output("min", field) && exists x :: Reports(rt, v, x) && IsLeast(rt, recs, field, x)
  {
    ParseNamed("min", field);
    LeastOfFold(rt, recs, field);
    var (acc, count) := R.FoldNumeric(rt, recs, field, rt.min);
    assert Reports(rt, R.FoldedNumber(rt, recs, field, rt.min), if count == 0 then 0.0 else acc);
  }

  lemma MaxReports(rt: Runtime, recs: seq<Value>, field: Option<string>)
    requires RealArithmetic(rt)
    ensures R.ParseReducer(Reducer("max", field)).Some?
    ensures var (name, v) := R.Reduced(rt, R.ParseReducer(Reducer("max", field)).value, recs);
            name == Output("max", field) && exists x :: Reports(rt, v, x) && IsGreatest(rt, recs, field, x)
  {
    ParseNamed("max", field);
    GreatestOfFold(rt, recs, field);
    var (acc, count) := R.FoldNumeric(rt, recs, field, rt.max);
    assert Reports(rt, R.FoldedNumber(rt, recs, field, rt.max), if count == 0 then 0.0 else acc);
  }

  /** Every reducer text that parses means what it says. */
  lemma ReducerMeans(rt: Runtime, raw: string, recs: seq<Value>)
    requires RealArithmetic(rt) && Known(raw)
    ensures R.ParseReducer(raw).Some?
    ensures var (name, v) := R.Reduced(rt, R.ParseReducer(raw).value, recs);
            IsReduction(rt, raw, recs, name, v)
  {
    KnownIff(raw);
    var (name, v) := R.Reduced(rt, R.ParseReducer(raw).value, recs);
    forall field | raw == Reducer("sum", field)
      ensures name == Output("sum", field) && exists x :: Reports(rt, v, x) && IsTotal(rt, recs, field, x)
    {
      SumReports(rt, recs, field);
    }
    forall field | raw == Reducer("min", field)
      ensures name == Output("min", field) && exists x :: Reports(rt, v, x) && IsLeast(rt, recs, field, x)
    {
      MinReports(rt, recs, field);
    }
    forall field | raw == Reducer("max", field)
      ensures name == Output("max", field) && exists x :: Reports(rt, v, x) && IsGreatest(rt, recs, field, x)
    {
      MaxReports(rt, recs, field);
    }
  }

  // ----- groups

  /** The record has the text `k` under `key`. */
  predicate HasKey(key: string, k: string, rec: Value) {
    rec.Object? && key in rec.fields && rec.fields[key] == Str(k)
  }

  ghost predicate Keyed(key: string, recs: seq<Value>) {
    forall r :: r in recs ==> exists k :: HasKey(key, k, r)
  }

  /** The records with key `k`, in order. */
  function WithKey(key: string, k: string, recs: seq<Value>): seq<Value> {
    if recs == [] then []
    else
      var init, last := recs[..|recs| - 1], recs[|recs| - 1];
      if HasKey(key, k, last) then WithKey(key, k, init) + [last] else WithKey(key, k, init)
  }

  ghost predicate Occurs(key: string, recs: seq<Value>, k: string) {
    exists r :: r in recs && HasKey(key, k, r)
  }

  /** The output record for key `k`: the key and the reduction of its group, which wins if the names clash. */
  ghost predicate IsGroupRecord(rt: Runtime, raw: string, key: string, recs: seq<Value>, k: string, v: Value) {
    && v.Object?
    && exists name, w :: IsReduction(rt, raw, WithKey(key, k, recs), name, w) &&
         v.fields == if name == key then map[name := w] else map[key := Str(k), name := w]
  }

  /** The records `listed` are those of the keys that occur, each key once. */
  ghost predicate ListsGroups(rt: Runtime, raw: string, key: string, recs: seq<Value>, keys: seq<string>,
                              listed: seq<Value>)
  {
    && NoDup(keys) && (forall k :: k in keys <==> Occurs(key, recs, k))
    && |listed| == |keys| && forall i :: 0 <= i < |keys| ==> IsGroupRecord(rt, raw, key, recs, keys[i], listed[i])
  }

  /** One record for each key that occurs, and no others, in any order. */
  ghost predicate OneRecordPerKey(rt: Runtime, raw: string, key: string, recs: seq<Value>, out: seq<Value>) {
    exists keys, listed :: ListsGroups(rt, raw, key, recs, keys, listed) && multiset(listed) == multiset(out)
  }

  lemma KeyOf(key: string, rec: Value)
    ensures forall k :: R.GroupKey(key, rec) == Some(k) <==> HasKey(key, k, rec)
  {
  }

  lemma KeyedIff(key: string, recs: seq<Value>)
    ensures R.AllKeyed(key, recs) <==> Keyed(key, recs)
  {
    forall r ensures R.GroupKey(key, r).Some? <==> exists k :: HasKey(key, k, r) {
      KeyOf(key, r);
      if R.GroupKey(key, r).Some? {
        assert HasKey(key, R.GroupKey(key, r).value, r);
      }
    }
  }

  lemma {:induction false} GroupIs(key: string, k: string, recs: seq<Value>)
    ensures R.Group(key, k, recs) == WithKey(key, k, recs)
    ensures WithKey(key, k, recs) != [] <==> Occurs(key, recs, k)
  {
    if recs != [] {
      var init, last := recs[..|recs| - 1], recs[|recs| - 1];
      assert recs == init + [last];
      GroupIs(key, k, init);
      KeyOf(key, last);
    }
  }

  lemma GroupRecordMeans(rt: Runtime, raw: string, key: string, recs: seq<Value>, k: string)
    requires RealArithmetic(rt) && Known(raw)
    ensures R.ParseReducer(raw).Some?
    ensures IsGroupRecord(rt, raw, key, recs, k,
                          R.GroupRecord(rt, R.ParseReducer(raw).value, key, k, R.Group(key, k, recs)))
  {
    GroupIs(key, k, recs);
    ReducerMeans(rt, raw, WithKey(key, k, recs));
    var (name, w) := R.Reduced(rt, R.ParseReducer(raw).value, WithKey(key, k, recs));
    assert map[key := Str(k)][name := w] == if name == key then map[name := w] else map[key := Str(k), name := w];
  }

  lemma {:induction false} ExpandSingles<A, B>(s: seq<A>, f: A -> seq<B>, g: A -> B)
    requires forall x :: x in s ==> f(x) == [g(x)]
    ensures |Expand(s, f)| == |s| && forall i :: 0 <= i < |s| ==> Expand(s, f)[i] == g(s[i])
  {
    if s != [] {
      var init, last := s[..|s| - 1], s[|s| - 1];
      assert s == init + [last];
      ExpandSingles(init, f, g);
    }
  }

  function RecordFor(rt: Runtime, kind: R.ReducerKind, key: string, recs: seq<Value>): string -> Value {
    (k: string) => R.GroupRecord(rt, kind, key, k, R.Group(key, k, recs))
  }

  lemma GroupsAreListed(rt: Runtime, raw: string, key: string, recs: seq<Value>)
    requires RealArithmetic(rt) && R.ParseReducer(raw).Some?
    ensures ListsGroups(rt, raw, key, recs, R.GroupKeys(key, recs),
                        R.GroupRecords(rt, R.ParseReducer(raw).value, key, recs))
  {
    KnownIff(raw);
    var kind, keys := R.ParseReducer(raw).value, R.GroupKeys(key, recs);
    R.GroupKeysFacts(key, recs);
    forall k ensures k in keys <==> Occurs(key, recs, k) {
      GroupIs(key, k, recs);
    }
    ExpandSingles(keys, R.RecordOf(rt, kind, key, recs), RecordFor(rt, kind, key, recs));
    forall i | 0 <= i < |keys|
      ensures IsGroupRecord(rt, raw, key, recs, keys[i], RecordFor(rt, kind, key, recs)(keys[i]))
    {
      GroupRecordMeans(rt, raw, key, recs, keys[i]);
    }
  }

  /** What a keyed reduction outputs. */
  lemma GroupsMean(rt: Runtime, raw: string, key: string, recs: seq<Value>, out: seq<Value>)
    requires RealArithmetic(rt) && R.ParseReducer(raw).Some?
    requires multiset(out) == multiset(R.GroupRecords(rt, R.ParseReducer(raw).value, key, recs))
    ensures OneRecordPerKey(rt, raw, key, recs, out)
  {
    GroupsAreListed(rt, raw, key, recs);
  }

  // ----- operators

  /**
   The outcome of a keyed reduction: it fails exactly when it has an input and the reducer is unknown or a record has no
   text under the key; otherwise it outputs one record per key with the reduction of that key's records.
   */
  ghost predicate OneKeyedReduction(rt: Runtime, raw: string, key: string, parts: seq<Partition>,
                                    out: Result<seq<Partition>, string>)
  {
    && (out.Ok? <==> parts == [] || (Known(raw) && Keyed(key, S.Records(parts))))
    && (parts == [] ==> out == Ok([]))
    && (out.Ok? && parts != [] ==>
          && |out.value| == 1 && out.value[0].id == parts[0].id
          && OneRecordPerKey(rt, raw, key, S.Records(parts), out.value[0].records))
  }

  lemma KeyedReductionMeans(ctx: Context, id: string, key: string, raw: string, parts: seq<Partition>)
    requires RealArithmetic(ctx.rt) && OrdersGroups(ctx)
    ensures OneKeyedReduction(ctx.rt, raw, key, parts, Execute(ctx, id, ReduceByKey(key, raw), parts))
  {
    KnownIff(raw);
    KeyedIff(key, S.Records(parts));
    if parts != [] && Known(raw) && Keyed(key, S.Records(parts)) {
      var recs := S.Records(parts);
      GroupsMean(ctx.rt, raw, key, recs,
                 ctx.hashOrder(id, R.GroupRecords(ctx.rt, R.ParseReducer(raw).value, key, recs)));
    }
  }

  /** The outcome of an unkeyed reduction: one record that holds the reduction of all records. */
  ghost predicate OneReduction(rt: Runtime, raw: string, parts: seq<Partition>, out: Result<seq<Partition>, string>) {
    && (out.Ok? <==> Known(raw))
    && (out.Ok? && parts == [] ==> out.value == [])
    && (out.Ok? && parts != [] ==>
          exists name, v :: IsReduction(rt, raw, S.Records(parts), name, v) &&
            out.value == [Partition(parts[0].id, [Object(map[name := v])])])
  }

  /** Reduce and aggregate are the same operator. */
  lemma ReductionMeans(ctx: Context, id: string, raw: string, parts: seq<Partition>)
    requires RealArithmetic(ctx.rt)
    ensures OneReduction(ctx.rt, raw, parts, Execute(ctx, id, Reduce(raw), parts))
    ensures OneReduction(ctx.rt, raw, parts, Execute(ctx, id, Aggregate(raw), parts))
  {
    KnownIff(raw);
    if Known(raw) && parts != [] {
      ReducerMeans(ctx.rt, raw, S.Records(parts));
    }
  }
}
