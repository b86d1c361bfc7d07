/** Reducing each task's records by key, without a shuffle between tasks: when it equals one big reduction. */
module Grouping {
  import opened Prelude
  import opened Dag
  import opened Values
  import opened Platform
  import opened Buckets
  import opened Transforms
  import opened Read
  import opened Reduce

  // ----- keys in partitions

  /** Some record has key value `k`. */
  ghost predicate Occurs(key: string, k: string, recs: seq<Value>) {
    Group(key, k, recs) != []
  }

  /** The records of partition `p`. */
  ghost function PartRecords<A>(items: seq<A>, f: A -> seq<Value>, n: nat, p: nat): seq<Value>
    requires n > 0
  {
    Expand(Pick(items, n, p), f)
  }

  /** No key value occurs in two partitions. */
  ghost predicate KeysApart<A>(items: seq<A>, f: A -> seq<Value>, key: string, n: nat)
    requires n > 0
  {
    forall p, q, k ::
      0 <= p < n && 0 <= q < n &&
      Occurs(key, k, PartRecords(items, f, n, p)) && Occurs(key, k, PartRecords(items, f, n, q)) ==>
        p == q
  }

  lemma GroupConcat(key: string, k: string, a: seq<Value>, b: seq<Value>)
    ensures Group(key, k, a + b) == Group(key, k, a) + Group(key, k, b)
  {
    FilterConcat(a, b, (r: Value) => GroupKey(key, r) == Some(k));
  }

  /** One more item extends the records of its own partition only. */
  lemma PartRecordsAppend<A>(items: seq<A>, x: A, f: A -> seq<Value>, n: nat, p: nat)
    requires n > 0
    ensures PartRecords(items + [x], f, n, p) ==
            if |items| % n == p then PartRecords(items, f, n, p) + f(x) else PartRecords(items, f, n, p)
  {
    PickAppend(items, x, n, p);
    if |items| % n == p {
      ExpandConcat(Pick(items, n, p), [x], f);
      assert Expand([x], f) == f(x);
    } else {
      assert Pick(items, n, p) + [] == Pick(items, n, p);
    }
  }

  lemma ExpandLast<A>(items: seq<A>, x: A, f: A -> seq<Value>)
    ensures Expand(items + [x], f) == Expand(items, f) + f(x)
  {
    assert (items + [x])[..|items|] == items;
  }

  /** A key that occurs in one partition only has its whole group there, in order. */
  lemma {:induction false} WholeGroup<A>(items: seq<A>, f: A -> seq<Value>, key: string, k: string, n: nat, p: nat)
    requires p < n
    requires forall q :: 0 <= q < n && q != p ==> !Occurs(key, k, PartRecords(items, f, n, q))
    ensures Group(key, k, PartRecords(items, f, n, p)) == Group(key, k, Expand(items, f))
  {
    if items == [] {
    } else {
      var init, x, at := items[..|items| - 1], items[|items| - 1], (|items| - 1) % n;
      assert items == init + [x];
      forall q | 0 <= q < n && q != p ensures !Occurs(key, k, PartRecords(init, f, n, q)) {
        PartRecordsAppend(init, x, f, n, q);
        GroupConcat(key, k, PartRecords(init, f, n, q), f(x));
        assert !Occurs(key, k, PartRecords(items, f, n, q));
      }
      WholeGroup(init, f, key, k, n, p);
      PartRecordsAppend(init, x, f, n, at);
      PartRecordsAppend(init, x, f, n, p);
      ExpandLast(init, x, f);
      GroupConcat(key, k, PartRecords(init, f, n, at), f(x));
      GroupConcat(key, k, Expand(init, f), f(x));
      if at != p {
        assert !Occurs(key, k, PartRecords(items, f, n, at));
        assert Group(key, k, f(x)) == [];
      }
    }
  }

  /** A key occurs exactly when it occurs in some partition. */
  lemma {:induction false} OccursSomewhere<A>(items: seq<A>, f: A -> seq<Value>, key: string, k: string, n: nat)
    requires n > 0
    ensures Occurs(key, k, Expand(items, f)) <==> exists p :: 0 <= p < n && Occurs(key, k, PartRecords(items, f, n, p))
  {
    if items == [] {
    } else {
      var init, x, at := items[..|items| - 1], items[|items| - 1], (|items| - 1) % n;
      assert items == init + [x];
      OccursSomewhere(init, f, key, k, n);
      ExpandLast(init, x, f);
      GroupConcat(key, k, Expand(init, f), f(x));
      GroupConcat(key, k, PartRecords(init, f, n, at), f(x));
      forall p | 0 <= p < n
        ensures Occurs(key, k, PartRecords(items, f, n, p)) <==>
                Occurs(key, k, PartRecords(init, f, n, p)) || (p == at && Group(key, k, f(x)) != [])
      {
        PartRecordsAppend(init, x, f, n, p);
      }
      if Occurs(key, k, Expand(items, f)) {
        if Group(key, k, f(x)) != [] {
          assert Occurs(key, k, PartRecords(items, f, n, at));
        } else {
          var p :| 0 <= p < n && Occurs(key, k, PartRecords(init, f, n, p));
          assert Occurs(key, k, PartRecords(items, f, n, p));
        }
      }
    }
  }

  // ----- a home for every key

  /** A partition in which the key occurs. */
  ghost function Home<A(!new)>(items: seq<A>, f: A -> seq<Value>, key: string, n: nat): string -> nat
    requires n > 0
  {
    (k: string) =>
      if exists p :: 0 <= p < n && Occurs(key, k, PartRecords(items, f, n, p))
      then var p :| 0 <= p < n && Occurs(key, k, PartRecords(items, f, n, p)); p
      else 0
  }

  ghost function KeysOfPart<A>(items: seq<A>, f: A -> seq<Value>, key: string, n: nat, p: nat): seq<string>
    requires n > 0
  {
    GroupKeys(key, PartRecords(items, f, n, p))
  }

  lemma HomeOccurs<A(!new)>(items: seq<A>, f: A -> seq<Value>, key: string, n: nat, k: string)
    requires n > 0 && Occurs(key, k, Expand(items, f))
    ensures Occurs(key, k, PartRecords(items, f, n, Home(items, f, key, n)(k)))
  {
    OccursSomewhere(items, f, key, k, n);
  }

  lemma HomeKey<A(!new)>(items: seq<A>, f: A -> seq<Value>, key: string, n: nat, p: nat, k: string)
    requires p < n
    ensures var at := Home(items, f, key, n);
            k in Bucket(GroupKeys(key, Expand(items, f)), at, p) <==> k in KeysOfPart(items, f, key, n, p) && at(k) == p
  {
    var whole, at := Expand(items, f), Home(items, f, key, n);
    GroupKeysFacts(key, whole);
    GroupKeysFacts(key, PartRecords(items, f, n, p));
    InBucket(GroupKeys(key, whole), at, p, k);
    if at(k) == p {
      if Occurs(key, k, whole) {
        HomeOccurs(items, f, key, n, k);
      }
      if Occurs(key, k, PartRecords(items, f, n, p)) {
        OccursSomewhere(items, f, key, k, n);
      }
    }
  }

  /** The keys at home in a partition are among its keys. */
  lemma HomeKeys<A(!new)>(items: seq<A>, f: A -> seq<Value>, key: string, n: nat, p: nat)
    requires p < n
    ensures var at := Home(items, f, key, n);
            var home := Bucket(GroupKeys(key, Expand(items, f)), at, p);
            && NoDup(home) && NoDup(KeysOfPart(items, f, key, n, p))
            && (forall k :: k in home <==> k in KeysOfPart(items, f, key, n, p) && at(k) == p)
  {
    var whole, at := Expand(items, f), Home(items, f, key, n);
    GroupKeysFacts(key, whole);
    GroupKeysFacts(key, PartRecords(items, f, n, p));
    BucketNoDup(GroupKeys(key, whole), at, p);
    forall k ensures k in Bucket(GroupKeys(key, whole), at, p) <==> k in KeysOfPart(items, f, key, n, p) && at(k) == p {
      HomeKey(items, f, key, n, p, k);
    }
  }

  lemma HomeBelow<A(!new)>(items: seq<A>, f: A -> seq<Value>, key: string, n: nat, k: string)
    requires n > 0
    ensures Home(items, f, key, n)(k) < n
  {
  }

  // ----- sizes

  lemma {:induction false} SumSizes<T>(n: nat, g: nat -> multiset<T>, h: nat -> multiset<T>)
    requires forall p :: 0 <= p < n ==> |h(p)| <= |g(p)|
    ensures |SumOver(n, h)| <= |SumOver(n, g)|
    ensures |SumOver(n, h)| == |SumOver(n, g)| ==> forall p :: 0 <= p < n ==> |h(p)| == |g(p)|
  {
    if n == 0 {
    } else {
      SumSizes(n - 1, g, h);
    }
  }

  /** A reduction outputs one record per key. */
  lemma {:induction false} OneRecordPerKey(keys: seq<string>, rt: Runtime, kind: ReducerKind, key: string,
                                           recs: seq<Value>)
    ensures |Expand(keys, RecordOf(rt, kind, key, recs))| == |keys|
  {
    if keys == [] {
    } else {
      OneRecordPerKey(keys[..|keys| - 1], rt, kind, key, recs);
    }
  }

  lemma SmallerNoDup(a: seq<string>, b: seq<string>)
    requires NoDup(a) && NoDup(b) && forall k :: k in a ==> k in b
    ensures |a| <= |b|
    ensures |a| == |b| ==> forall k :: k in b ==> k in a
  {
    NoDupSize(a);
    NoDupSize(b);
    var x, y := Elems(a), Elems(b);
    assert y == x + (y - x);
    if |a| == |b| {
      assert y - x == {};
      assert forall k :: k in b ==> k in y;
    }
  }

  // ----- the exact condition

  /** What each partition's reduction outputs. */
  ghost function ReducedPart<A>(rt: Runtime, kind: ReducerKind, key: string, items: seq<A>, f: A -> seq<Value>, n: nat)
    : nat -> multiset<Value>
    requires n > 0
  {
    (p: nat) => multiset(GroupRecords(rt, kind, key, PartRecords(items, f, n, p)))
  }

  /** The records of the keys at home in each partition. */
  ghost function HomeRecords<A(!new)>(rt: Runtime, kind: ReducerKind, key: string, items: seq<A>, f: A -> seq<Value>,
                                      n: nat)
    : nat -> multiset<Value>
    requires n > 0
  {
    PerBucket(GroupKeys(key, Expand(items, f)), Home(items, f, key, n), RecordOf(rt, kind, key, Expand(items, f)))
  }

  lemma HomeRecordsSum<A(!new)>(rt: Runtime, kind: ReducerKind, key: string, items: seq<A>, f: A -> seq<Value>, n: nat)
    requires n > 0
    ensures SumOver(n, HomeRecords(rt, kind, key, items, f, n)) ==
            multiset(GroupRecords(rt, kind, key, Expand(items, f)))
  {
    var keys := GroupKeys(key, Expand(items, f));
    forall k | k in keys ensures Home(items, f, key, n)(k) < n {
      HomeBelow(items, f, key, n, k);
    }
    ExpandByBucket(keys, Home(items, f, key, n), n, RecordOf(rt, kind, key, Expand(items, f)));
  }

  lemma PartSizes<A(!new)>(rt: Runtime, kind: ReducerKind, key: string, items: seq<A>, f: A -> seq<Value>, n: nat,
                           p: nat)
    requires p < n
    ensures |HomeRecords(rt, kind, key, items, f, n)(p)| <= |ReducedPart(rt, kind, key, items, f, n)(p)|
    ensures |HomeRecords(rt, kind, key, items, f, n)(p)| == |ReducedPart(rt, kind, key, items, f, n)(p)| ==>
              forall k :: k in KeysOfPart(items, f, key, n, p) ==> Home(items, f, key, n)(k) == p
  {
    var whole := Expand(items, f);
    var home, keys := Bucket(GroupKeys(key, whole), Home(items, f, key, n), p), KeysOfPart(items, f, key, n, p);
    HomeKeys(items, f, key, n, p);
    SmallerNoDup(home, keys);
    OneRecordPerKey(home, rt, kind, key, whole);
    OneRecordPerKey(keys, rt, kind, key, PartRecords(items, f, n, p));
    assert |HomeRecords(rt, kind, key, items, f, n)(p)| == |home|;
    assert |ReducedPart(rt, kind, key, items, f, n)(p)| == |keys|;
  }

  /** If the partial reductions are the big one, every key has one partition. */
  lemma EqualMeansHome<A(!new)>(rt: Runtime, kind: ReducerKind, key: string, items: seq<A>, f: A -> seq<Value>, n: nat,
                                p: nat, k: string)
    requires p < n && Occurs(key, k, PartRecords(items, f, n, p))
    requires SumOver(n, ReducedPart(rt, kind, key, items, f, n)) ==
             multiset(GroupRecords(rt, kind, key, Expand(items, f)))
    ensures Home(items, f, key, n)(k) == p
  {
    var g, h := ReducedPart(rt, kind, key, items, f, n), HomeRecords(rt, kind, key, items, f, n);
    HomeRecordsSum(rt, kind, key, items, f, n);
    forall q: nat | q < n ensures |h(q)| <= |g(q)| {
      PartSizes(rt, kind, key, items, f, n, q);
    }
    SumSizes(n, g, h);
    PartSizes(rt, kind, key, items, f, n, p);
    GroupKeysFacts(key, PartRecords(items, f, n, p));
    assert k in KeysOfPart(items, f, key, n, p);
  }

  lemma EqualMeansApart<A(!new)>(rt: Runtime, kind: ReducerKind, key: string, items: seq<A>, f: A -> seq<Value>, n: nat)
    requires n > 0
    requires SumOver(n, ReducedPart(rt, kind, key, items, f, n)) ==
             multiset(GroupRecords(rt, kind, key, Expand(items, f)))
    ensures KeysApart(items, f, key, n)
  {
    forall p, q, k
      | 0 <= p < n && 0 <= q < n && Occurs(key, k, PartRecords(items, f, n, p)) &&
        Occurs(key, k, PartRecords(items, f, n, q))
      ensures p == q
    {
      EqualMeansHome(rt, kind, key, items, f, n, p, k);
      EqualMeansHome(rt, kind, key, items, f, n, q, k);
    }
  }

  /** With one partition per key, a partition's reduction is that of its keys over everything. */
  lemma ApartPart<A(!new)>(rt: Runtime, kind: ReducerKind, key: string, items: seq<A>, f: A -> seq<Value>, n: nat,
                           p: nat)
    requires p < n && KeysApart(items, f, key, n)
    ensures ReducedPart(rt, kind, key, items, f, n)(p) == HomeRecords(rt, kind, key, items, f, n)(p)
  {
    var whole, at := Expand(items, f), Home(items, f, key, n);
    var home, keys := Bucket(GroupKeys(key, whole), at, p), KeysOfPart(items, f, key, n, p);
    var part := PartRecords(items, f, n, p);
    HomeKeys(items, f, key, n, p);
    GroupKeysFacts(key, part);
    forall k | k in keys ensures at(k) == p && RecordOf(rt, kind, key, part)(k) == RecordOf(rt, kind, key, whole)(k) {
      assert Occurs(key, k, part);
      WholeGroup(items, f, key, k, n, p);
    }
    ExpandExt(keys, RecordOf(rt, kind, key, part), RecordOf(rt, kind, key, whole));
    assert Elems(home) == Elems(keys);
    NoDupMultiset(keys, home);
    ExpandPermuted(keys, home, RecordOf(rt, kind, key, whole));
  }

  /** Reducing the partitions equals reducing everything exactly when no key value occurs in two partitions. */
  lemma GroupingIff<A(!new)>(rt: Runtime, kind: ReducerKind, key: string, items: seq<A>, f: A -> seq<Value>, n: nat)
    requires n > 0
    ensures SumOver(n, ReducedPart(rt, kind, key, items, f, n)) ==
            multiset(GroupRecords(rt, kind, key, Expand(items, f))) <==>
            KeysApart(items, f, key, n)
  {
    var g, h := ReducedPart(rt, kind, key, items, f, n), HomeRecords(rt, kind, key, items, f, n);
    if SumOver(n, g) == multiset(GroupRecords(rt, kind, key, Expand(items, f))) {
      EqualMeansApart(rt, kind, key, items, f, n);
    }
    if KeysApart(items, f, key, n) {
      HomeRecordsSum(rt, kind, key, items, f, n);
      forall p: nat | p < n ensures g(p) == h(p) {
        ApartPart(rt, kind, key, items, f, n, p);
      }
      SumExt(n, g, h);
    }
  }

  // ----- tasks

  /** What a task outputs, nothing when it fails. */
  ghost function OutputOf(tx: TextFns, format: string, file: Option<string>, ops: seq<OperatorType>, n: nat, p: nat)
    : seq<Value>
    requires n > 0 && ChainOps(ops)
  {
    var out := TaskOutput(tx, format, file, ops, n, p);
    if out.Ok? then out.value else []
  }

  /** What the tasks output when each reduces its own records. */
  ghost function ReducedPerTask(rt: Runtime, kind: ReducerKind, key: string, tx: TextFns, format: string,
                                file: Option<string>, ops: seq<OperatorType>, n: nat)
    : nat -> multiset<Value>
    requires n > 0 && ChainOps(ops)
  {
    (p: nat) => multiset(GroupRecords(rt, kind, key, OutputOf(tx, format, file, ops, n, p)))
  }

  /** No key value occurs in the records of two tasks. */
  ghost predicate TasksApart(key: string, tx: TextFns, format: string, file: Option<string>, ops: seq<OperatorType>,
                             n: nat)
    requires n > 0 && ChainOps(ops)
  {
    forall p, q, k ::
      0 <= p < n && 0 <= q < n &&
      Occurs(key, k, OutputOf(tx, format, file, ops, n, p)) && Occurs(key, k, OutputOf(tx, format, file, ops, n, q)) ==>
        p == q
  }

  lemma OutputIsPart(tx: TextFns, format: string, file: Option<string>, ops: seq<OperatorType>, n: nat, p: nat)
    requires n > 0 && ChainOps(ops) && TaskOutput(tx, format, file, ops, n, p).Ok?
    ensures PlanRead(tx, format, file).Ok?
    ensures var plan := PlanRead(tx, format, file).value;
            OutputOf(tx, format, file, ops, n, p) == PartRecords(plan.items, ItemRecords(tx, plan.mode, ops), n, p)
  {
    TaskSplit(tx, format, file, ops, n, p);
  }

  /**
   Without redistribution, the tasks' reductions together are the reduction of the whole input exactly when no key
   value occurs in two tasks: for every reducer, every chain before it and every number of partitions.
   */
  lemma LocalGroupingIff(rt: Runtime, kind: ReducerKind, key: string, tx: TextFns, format: string, file: Option<string>,
                         ops: seq<OperatorType>, n: nat)
    requires n > 0 && ChainOps(ops) && TaskOutput(tx, format, file, ops, 1, 0).Ok?
    ensures SumOver(n, ReducedPerTask(rt, kind, key, tx, format, file, ops, n)) ==
            multiset(GroupRecords(rt, kind, key, TaskOutput(tx, format, file, ops, 1, 0).value)) <==>
            TasksApart(key, tx, format, file, ops, n)
  {
    TasksSucceedTogether(tx, format, file, ops, n);
    TaskSplit(tx, format, file, ops, 1, 0);
    var plan := PlanRead(tx, format, file).value;
    var items, f := plan.items, ItemRecords(tx, plan.mode, ops);
    PickAll(items);
    forall p: nat | p < n ensures OutputOf(tx, format, file, ops, n, p) == PartRecords(items, f, n, p) {
      OutputIsPart(tx, format, file, ops, n, p);
    }
    SumExt(n, ReducedPerTask(rt, kind, key, tx, format, file, ops, n), ReducedPart(rt, kind, key, items, f, n));
    GroupingIff(rt, kind, key, items, f, n);
    assert KeysApart(items, f, key, n) <==> TasksApart(key, tx, format, file, ops, n);
  }

  // ----- an input on which local grouping is not global

  lemma OneKeyOneRecord(rt: Runtime, kind: ReducerKind, key: string, k: string, recs: seq<Value>)
    requires recs != [] && forall r :: r in recs ==> GroupKey(key, r) == Some(k)
    ensures |GroupRecords(rt, kind, key, recs)| == 1
  {
    OnlyKey(key, k, recs);
    OneRecordPerKey(GroupKeys(key, recs), rt, kind, key, recs);
  }

  lemma {:induction false} OnlyKey(key: string, k: string, recs: seq<Value>)
    requires forall r :: r in recs ==> GroupKey(key, r) == Some(k)
    ensures GroupKeys(key, recs) == if recs == [] then [] else [k]
  {
    if recs == [] {
    } else {
      var init, last := recs[..|recs| - 1], recs[|recs| - 1];
      assert last in recs && recs == init + [last];
      OnlyKey(key, k, init);
    }
  }

  /** Two JSON lines, without and with a line end between them. */
  lemma TwoLines(tx: TextFns, a: string, b: string)
    requires '\n' !in a && '\n' !in b && b != [] && StripLast(a, '\r') == a
    ensures PlanRead(tx, "jsonl", Some(a + ['\n'] + b)) == Ok(Plan([Line(a), Line(b)], JsonLines))
  {
    FirstLine(a, b, '\n', '\r');
    LastLine(b, '\n', '\r');
    assert [a] + [b] == [a, b];
    assert AsLines([a, b]) == [Line(a), Line(b)];
    assert "jsonl" != "csv" by { assert |"jsonl"| != |"csv"|; }
  }

  lemma PicksOfTwo<A>(x: A, y: A)
    ensures Pick([x, y], 2, 0) == [x] && Pick([x, y], 2, 1) == [y] && Pick([x, y], 1, 0) == [x, y]
  {
    PickAll([x, y]);
    assert [x, y] == [x] + [y] && [x] == [] + [x];
    PickAppend([], x, 2, 0);
    PickAppend([], x, 2, 1);
    PickAppend([x], y, 2, 0);
    PickAppend([x], y, 2, 1);
  }

  /** What a list of one or two readable JSON lines becomes. */
  lemma ReadOneOrTwo(tx: TextFns, a: string, b: string, u: Value, v: Value)
    requires !tx.blank(a) && !tx.blank(b) && tx.parseJson(a) == Some(u) && tx.parseJson(b) == Some(v) && u.Object? &&
             v.Object?
    ensures var f := ReadItem(tx, JsonLines);
            && Traverse([Line(a)], f) == Ok([u]) && Traverse([Line(b)], f) == Ok([v])
            && Traverse([Line(a), Line(b)], f) == Ok([u, v])
  {
    var f := ReadItem(tx, JsonLines);
    assert f(Line(a)) == Ok([u]) && f(Line(b)) == Ok([v]);
    TraverseAppend([], Line(a), f);
    TraverseAppend([], Line(b), f);
    TraverseAppend([Line(a)], Line(b), f);
    assert [] + [Line(a)] == [Line(a)] && [] + [Line(b)] == [Line(b)] && [Line(a)] + [Line(b)] == [Line(a), Line(b)];
    assert [] + [u] == [u] && [] + [v] == [v] && [u] + [v] == [u, v];
  }

  /**
   Two records with one key, read by two tasks: each task outputs a record for the key, where one task outputs one.
   */
  lemma SplitKeyExample(rt: Runtime, kind: ReducerKind, key: string, k: string, tx: TextFns, a: string, b: string,
                        u: Value, v: Value)
    requires '\n' !in a && '\n' !in b && b != [] && StripLast(a, '\r') == a
    requires !tx.blank(a) && !tx.blank(b) && tx.parseJson(a) == Some(u) && tx.parseJson(b) == Some(v)
    requires GroupKey(key, u) == Some(k) && GroupKey(key, v) == Some(k)
    ensures var file := Some(a + ['\n'] + b);
            var left, right := ReadPartition(tx, "jsonl", file, 2, 0), ReadPartition(tx, "jsonl", file, 2, 1);
            var whole := ReadPartition(tx, "jsonl", file, 1, 0);
            && left == Ok([u]) && right == Ok([v]) && whole == Ok([u, v])
            && |GroupRecords(rt, kind, key, [u])| == 1 && |GroupRecords(rt, kind, key, [v])| == 1
            && |GroupRecords(rt, kind, key, [u, v])| == 1
  {
    TwoLines(tx, a, b);
    PicksOfTwo(Line(a), Line(b));
    ReadOneOrTwo(tx, a, b, u, v);
    OneKeyOneRecord(rt, kind, key, k, [u]);
    OneKeyOneRecord(rt, kind, key, k, [v]);
    OneKeyOneRecord(rt, kind, key, k, [u, v]);
  }
}
