/** Group-by reduction: hash grouping, reducers, and shuffled grouping. */
module Reduce {
  import opened Prelude
  import opened Values
  import opened Platform
  import opened Buckets
  import opened Shuffle

  datatype ReducerKind =
    | Sum(field: Option<string>)
    | Min(field: Option<string>)
    | Max(field: Option<string>)
    | Count
    | Collect

  datatype ReduceError = UnknownReducer(raw: string) | UnsupportedReducer(raw: string) | MissingKey(key: string)

  // ----- reducers

  function ParseReducer(raw: string): Option<ReducerKind> {
    if raw == "count" then Some(Count)
    else if raw == "collect" then Some(Collect)
    else
      var at := FirstOf(raw, ':');
      var op, field := raw[..at], if at < |raw| then Some(raw[at + 1..]) else None;
      if op == "sum" then Some(Sum(field))
      else if op == "min" then Some(Min(field))
      else if op == "max" then Some(Max(field))
      else None
  }

  function ExtractNumber(rt: Runtime, rec: Value, field: Option<string>): Option<real> {
    match field
    case None => if rec.Num? then Some(rt.asReal(rec.n)) else None
    case Some(f) =>
      if rec.Object? && f in rec.fields && rec.fields[f].Num? then Some(rt.asReal(rec.fields[f].n)) else None
  }

  /** The left fold of `f` over the numbers of `recs`, with their count. */
  function FoldNumeric(rt: Runtime, recs: seq<Value>, field: Option<string>, f: (real, real) -> real): (real, nat) {
    if recs == [] then (0.0, 0)
    else
      var (acc, count) := FoldNumeric(rt, recs[..|recs| - 1], field, f);
      match ExtractNumber(rt, recs[|recs| - 1], field)
      case None => (acc, count)
      case Some(n) => (if count == 0 then n else f(acc, n), count + 1)
  }

  /** `fold_numeric`. */
  method ComputeFold(rt: Runtime, recs: seq<Value>, field: Option<string>, f: (real, real) -> real)
    returns (acc: real, count: nat)
    ensures (acc, count) == FoldNumeric(rt, recs, field, f)
  {
    acc, count := 0.0, 0;
    for i := 0 to |recs|
      invariant (acc, count) == FoldNumeric(rt, recs[..i], field, f)
    {
      assert recs[..i + 1][..i] == recs[..i];
      var n := ExtractNumber(rt, recs[i], field);
      if n.Some? {
        acc := if count == 0 then n.value else f(acc, n.value);
        count := count + 1;
      }
    }
    assert recs[..|recs|] == recs;
  }

  /** `f` returns whichever of its arguments comes first in the order `le`. */
  ghost predicate Picks(f: (real, real) -> real, le: (real, real) -> bool) {
    && (forall a :: le(a, a))
    && (forall a, b, c :: le(a, b) && le(b, c) ==> le(a, c))
    && forall a, b :: (f(a, b) == a || f(a, b) == b) && le(f(a, b), a) && le(f(a, b), b)
  }

  /** The numbers of `recs`, in order; records without one are skipped. */
  function Numbers(rt: Runtime, recs: seq<Value>, field: Option<string>): seq<real> {
    if recs == [] then []
    else
      var n := ExtractNumber(rt, recs[|recs| - 1], field);
      Numbers(rt, recs[..|recs| - 1], field) + (if n.Some? then [n.value] else [])
  }

  /** Folding with a minimum or maximum yields the least or greatest of the numbers, and counts them. */
  lemma {:induction false} FoldIsExtreme(rt: Runtime, recs: seq<Value>, field: Option<string>, f: (real, real) -> real,
                                         le: (real, real) -> bool)
    requires Picks(f, le)
    ensures var (acc, count) := FoldNumeric(rt, recs, field, f);
            var numbers := Numbers(rt, recs, field);
            && count == |numbers|
            && (count > 0 ==> acc in numbers && forall x :: x in numbers ==> le(acc, x))
  {
    if recs == [] {
    } else {
      FoldIsExtreme(rt, recs[..|recs| - 1], field, f, le);
    }
  }

  function FieldName(op: string, field: Option<string>): string {
    match field
    case None => op
    case Some(f) => op + "_" + f
  }

  function FoldedNumber(rt: Runtime, recs: seq<Value>, field: Option<string>, f: (real, real) -> real): Value {
    var (acc, count) := FoldNumeric(rt, recs, field, f);
    Num(rt.fromReal(if count == 0 then 0.0 else acc))
  }

  /** The one field `apply_reducer` produces. */
  function Reduced(rt: Runtime, kind: ReducerKind, recs: seq<Value>): (string, Value) {
    match kind
    case Count => ("count", Num(Integer(|recs|)))
    case Collect => ("collect", Array(recs))
    case Sum(f) => (FieldName("sum", f), FoldedNumber(rt, recs, f, rt.add))
    case Min(f) => (FieldName("min", f), FoldedNumber(rt, recs, f, rt.min))
    case Max(f) => (FieldName("max", f), FoldedNumber(rt, recs, f, rt.max))
  }

  // ----- groups

  /** The group of a record: the text of a string-valued key field. */
  function GroupKey(key: string, rec: Value): Option<string> {
    if rec.Object? && key in rec.fields && rec.fields[key].Str? then Some(rec.fields[key].s) else None
  }

  predicate AllKeyed(key: string, recs: seq<Value>) {
    forall r :: r in recs ==> GroupKey(key, r).Some?
  }

  function Group(key: string, k: string, recs: seq<Value>): seq<Value> {
    Filter(recs, (r: Value) => GroupKey(key, r) == Some(k))
  }

  /** The keys that occur, in order of first occurrence. */
  function GroupKeys(key: string, recs: seq<Value>): seq<string> {
    if recs == [] then []
    else
      var init := GroupKeys(key, recs[..|recs| - 1]);
      var k := GroupKey(key, recs[|recs| - 1]);
      if k.Some? && k.value !in init then init + [k.value] else init
  }

  /** The output record of one group; the reducer's field overwrites the key field on a clash. */
  function GroupRecord(rt: Runtime, kind: ReducerKind, key: string, k: string, group: seq<Value>): Value {
    var (name, v) := Reduced(rt, kind, group);
    Object(map[key := Str(k)][name := v])
  }

  function RecordOf(rt: Runtime, kind: ReducerKind, key: string, recs: seq<Value>): string -> seq<Value> {
    k => [GroupRecord(rt, kind, key, k, Group(key, k, recs))]
  }

  /** One record per group. The code emits them in hash order, so only the multiset is meaningful. */
  function GroupRecords(rt: Runtime, kind: ReducerKind, key: string, recs: seq<Value>): seq<Value> {
    Expand(GroupKeys(key, recs), RecordOf(rt, kind, key, recs))
  }

  lemma {:induction false} GroupKeysFacts(key: string, recs: seq<Value>)
    ensures NoDup(GroupKeys(key, recs))
    ensures forall k :: k in GroupKeys(key, recs) <==> Group(key, k, recs) != []
  {
    if recs == [] {
    } else {
      GroupKeysFacts(key, recs[..|recs| - 1]);
    }
  }

  /** Hash grouping: `k` maps to its group. */
  ghost predicate Grouped(key: string, recs: seq<Value>, groups: map<string, seq<Value>>) {
    (forall k :: k in groups <==> Group(key, k, recs) != []) &&
    forall k :: k in groups ==> groups[k] == Group(key, k, recs)
  }

  /** The grouping loop; stops at the first record without a string key. */
  method GroupRecordsByKey(key: string, recs: seq<Value>) returns (ok: bool, groups: map<string, seq<Value>>)
    ensures ok <==> AllKeyed(key, recs)
    ensures ok ==> Grouped(key, recs, groups)
  {
    groups := map[];
    for i := 0 to |recs|
      invariant AllKeyed(key, recs[..i])
      invariant Grouped(key, recs[..i], groups)
    {
      var k := GroupKey(key, recs[i]);
      assert recs[i] in recs;
      if k.None? {
        return false, groups;
      }
      GroupAppend(key, recs, i);
      groups := groups[k.value := (if k.value in groups then groups[k.value] else []) + [recs[i]]];
    }
    assert recs[..|recs|] == recs;
    ok := true;
  }

  lemma GroupAppend(key: string, recs: seq<Value>, i: nat)
    requires i < |recs|
    ensures forall k :: Group(key, k, recs[..i + 1]) ==
                        Group(key, k, recs[..i]) + (if GroupKey(key, recs[i]) == Some(k) then [recs[i]] else [])
  {
    var p := recs[..i + 1];
    assert p[..i] == recs[..i] && p[|p| - 1] == recs[i];
  }

  /** The keys of a hash map in whatever order it yields them. */
  method HashOrder(keys: set<string>) returns (order: seq<string>)
    ensures NoDup(order) && Elems(order) == keys
  {
    order := [];
    var todo := keys;
    while todo != {}
      invariant todo <= keys
      invariant NoDup(order) && Elems(order) == keys - todo
      decreases todo
    {
      var k :| k in todo;
      assert k !in Elems(order);
      assert Elems(order + [k]) == Elems(order) + {k};
      order := order + [k];
      todo := todo - {k};
    }
  }

  /** Any order of the groups yields the same records. */
  lemma OrderDoesNotMatter(rt: Runtime, kind: ReducerKind, key: string, recs: seq<Value>, order: seq<string>)
    requires NoDup(order) && forall k :: k in order <==> Group(key, k, recs) != []
    ensures multiset(Expand(order, RecordOf(rt, kind, key, recs))) == multiset(GroupRecords(rt, kind, key, recs))
  {
    GroupKeysFacts(key, recs);
    assert Elems(order) == Elems(GroupKeys(key, recs));
    NoDupMultiset(order, GroupKeys(key, recs));
    ExpandPermuted(order, GroupKeys(key, recs), RecordOf(rt, kind, key, recs));
  }

  /** Emits one record per group, in hash order. */
  method EmitGroups(rt: Runtime, kind: ReducerKind, key: string, groups: map<string, seq<Value>>,
                    ghost recs: seq<Value>)
    returns (out: seq<Value>)
    requires Grouped(key, recs, groups)
    ensures multiset(out) == multiset(GroupRecords(rt, kind, key, recs))
  {
    var order := HashOrder(groups.Keys);
    forall k ensures k in order <==> k in groups {
      assert k in order <==> k in Elems(order);
    }
    out := [];
    for i := 0 to |order|
      invariant out == Expand(order[..i], RecordOf(rt, kind, key, recs))
    {
      var k := order[i];
      assert order[..i + 1][..i] == order[..i];
      assert groups[k] == Group(key, k, recs);
      out := out + [GroupRecord(rt, kind, key, k, groups[k])];
    }
    assert order[..|order|] == order;
    OrderDoesNotMatter(rt, kind, key, recs, order);
  }

  /** `ReduceByKeyOp::execute`. */
  method ReduceByKey(rt: Runtime, key: string, raw: string, parts: seq<Partition>)
    returns (r: Result<seq<Partition>, ReduceError>)
    ensures parts == [] ==> r == Ok([])
    ensures parts != [] && ParseReducer(raw).None? ==> r == Err(UnsupportedReducer(raw))
    ensures parts != [] && ParseReducer(raw).Some? && !AllKeyed(key, Records(parts)) ==>
            r == Err(ReduceError.MissingKey(key))
    ensures parts != [] && ParseReducer(raw).Some? && AllKeyed(key, Records(parts)) ==>
              r.Ok? && |r.value| == 1 && r.value[0].id == parts[0].id &&
              multiset(r.value[0].records) == multiset(GroupRecords(rt, ParseReducer(raw).value, key, Records(parts)))
  {
    if parts == [] {
      return Ok([]);
    }
    var kind := ParseReducer(raw);
    if kind.None? {
      return Err(UnsupportedReducer(raw));
    }
    var recs := [];
    for i := 0 to |parts|
      invariant recs == Records(parts[..i])
    {
      assert parts[..i + 1][..i] == parts[..i];
      recs := recs + parts[i].records;
    }
    assert parts[..|parts|] == parts;
    var ok, groups := GroupRecordsByKey(key, recs);
    if !ok {
      return Err(ReduceError.MissingKey(key));
    }
    var out := EmitGroups(rt, kind.value, key, groups, recs);
    r := Ok([Partition(parts[0].id, out)]);
  }

  // ----- shuffled grouping

  function GroupBucket(rt: Runtime, total: nat): string -> nat
    requires total > 0
  {
    k => rt.hash(Text(k)) % total
  }

  lemma KeyedBucket(rt: Runtime, key: string, total: nat, rec: Value)
    requires total > 0 && GroupKey(key, rec).Some?
    ensures BucketOf(rt, key, total)(rec) == GroupBucket(rt, total)(GroupKey(key, rec).value)
  {
  }

  lemma GroupKeysAppend(key: string, recs: seq<Value>, r: Value)
    requires GroupKey(key, r).Some?
    ensures var keys, k := GroupKeys(key, recs), GroupKey(key, r).value;
            GroupKeys(key, recs + [r]) == if k in keys then keys else keys + [k]
  {
    assert (recs + [r])[..|recs|] == recs;
  }

  /** The keys of a bucket are the keys that hash to it, in the same order. */
  lemma {:induction false} KeysOfBucket(rt: Runtime, key: string, total: nat, recs: seq<Value>, b: nat)
    requires total > 0 && AllKeyed(key, recs)
    ensures GroupKeys(key, Bucket(recs, BucketOf(rt, key, total), b)) ==
            Bucket(GroupKeys(key, recs), GroupBucket(rt, total), b)
  {
    var at, keyAt := BucketOf(rt, key, total), GroupBucket(rt, total);
    if recs == [] {
    } else {
      var init, last := recs[..|recs| - 1], recs[|recs| - 1];
      assert recs == init + [last] && last in recs;
      KeysOfBucket(rt, key, total, init, b);
      KeyedBucket(rt, key, total, last);
      var k, keys := GroupKey(key, last).value, GroupKeys(key, init);
      var part := Bucket(init, at, b);
      BucketAppend(init, last, at, b);
      BucketAppend(keys, k, keyAt, b);
      InBucket(keys, keyAt, b, k);
      GroupKeysAppend(key, init, last);
      if at(last) == b {
        GroupKeysAppend(key, part, last);
      } else {
        assert Bucket(recs, at, b) == part;
      }
    }
  }

  /** A group lies in one bucket, in its original order. */
  lemma GroupInBucket(rt: Runtime, key: string, total: nat, recs: seq<Value>, k: string)
    requires total > 0
    ensures Group(key, k, Bucket(recs, BucketOf(rt, key, total), GroupBucket(rt, total)(k))) == Group(key, k, recs)
  {
    SelectInBucket(recs, BucketOf(rt, key, total), GroupBucket(rt, total)(k),
                   (r: Value) => GroupKey(key, r) == Some(k));
  }

  /** The reduction of each bucket. */
  ghost function ReducedPerBucket(rt: Runtime, kind: ReducerKind, key: string, total: nat, recs: seq<Value>)
    : nat -> multiset<Value>
    requires total > 0
  {
    (b: nat) => multiset(GroupRecords(rt, kind, key, Bucket(recs, BucketOf(rt, key, total), b)))
  }

  lemma BucketReduction(rt: Runtime, kind: ReducerKind, key: string, total: nat, recs: seq<Value>, b: nat)
    requires total > 0 && AllKeyed(key, recs)
    ensures GroupRecords(rt, kind, key, Bucket(recs, BucketOf(rt, key, total), b)) ==
            Expand(Bucket(GroupKeys(key, recs), GroupBucket(rt, total), b), RecordOf(rt, kind, key, recs))
  {
    var part, keys := Bucket(recs, BucketOf(rt, key, total), b),
        Bucket(GroupKeys(key, recs), GroupBucket(rt, total), b);
    KeysOfBucket(rt, key, total, recs, b);
    forall k | k in keys ensures RecordOf(rt, kind, key, part)(k) == RecordOf(rt, kind, key, recs)(k) {
      InBucket(GroupKeys(key, recs), GroupBucket(rt, total), b, k);
      GroupInBucket(rt, key, total, recs, k);
    }
    ExpandExt(keys, RecordOf(rt, kind, key, part), RecordOf(rt, kind, key, recs));
  }

  /** Reducing the shuffled buckets gives the records of reducing everything, for every reducer and float arithmetic. */
  lemma ShuffleMakesGroupingGlobal(rt: Runtime, kind: ReducerKind, key: string, total: nat, recs: seq<Value>)
    requires total > 0 && AllKeyed(key, recs)
    ensures SumOver(total, ReducedPerBucket(rt, kind, key, total, recs)) == multiset(GroupRecords(rt, kind, key, recs))
  {
    var keys, keyAt, f := GroupKeys(key, recs), GroupBucket(rt, total), RecordOf(rt, kind, key, recs);
    ExpandByBucket(keys, keyAt, total, f);
    forall b: nat | b < total ensures ReducedPerBucket(rt, kind, key, total, recs)(b) == PerBucket(keys, keyAt, f)(b) {
      BucketReduction(rt, kind, key, total, recs, b);
    }
    SumExt(total, ReducedPerBucket(rt, kind, key, total, recs), PerBucket(keys, keyAt, f));
  }

  /** Some bucket lacks a key exactly when the input does. */
  lemma ShuffledKeysIff(rt: Runtime, key: string, total: nat, recs: seq<Value>)
    requires total > 0
    ensures AllKeyed(key, recs) <==>
            forall b :: 0 <= b < total ==> AllKeyed(key, Shuffled(rt, key, total, recs)[b].records)
  {
    var at := BucketOf(rt, key, total);
    forall b: nat, r | b < total ensures r in Bucket(recs, at, b) <==> r in recs && at(r) == b {
      InBucket(recs, at, b, r);
    }
    if !AllKeyed(key, recs) {
      var bad :| bad in recs && GroupKey(key, bad).None?;
      assert bad in Shuffled(rt, key, total, recs)[at(bad)].records;
    }
  }
}
