/** Modulo-partitioned reading, and its independence of the number of partitions. */
module Read {
  import opened Prelude
  import opened Dag
  import opened Values
  import opened Buckets
  import opened Transforms

  // ----- lines

  function StripLast<T(==)>(s: seq<T>, x: T): seq<T> {
    if s != [] && s[|s| - 1] == x then s[..|s| - 1] else s
  }

  /** Lines end at `nl`, which is dropped together with a `cr` before it; a last line may lack `nl`. */
  function Lines<T(==)>(s: seq<T>, nl: T, cr: T): seq<seq<T>>
    decreases |s|
  {
    if s == [] then []
    else
      var at := FirstOf(s, nl);
      if at == |s| then [s] else [StripLast(s[..at], cr)] + Lines(s[at + 1..], nl, cr)
  }

  /** A line without a line end, followed by one, is the first line. */
  lemma FirstLine<T>(line: seq<T>, rest: seq<T>, nl: T, cr: T)
    requires nl !in line && StripLast(line, cr) == line
    ensures Lines(line + [nl] + rest, nl, cr) == [line] + Lines(rest, nl, cr)
  {
    var s := line + [nl] + rest;
    var at := FirstOf(s, nl);
    assert s[|line|] == nl;
    assert forall i :: 0 <= i < |line| ==> s[i] == line[i];
    assert at == |line|;
    assert s[..at] == line && s[at + 1..] == rest;
  }

  /** Text without a line end is one line. */
  lemma LastLine<T>(line: seq<T>, nl: T, cr: T)
    requires nl !in line && line != []
    ensures Lines(line, nl, cr) == [line]
  {
  }

  // ----- partitions

  /** The elements at positions congruent to `p` modulo `n`. */
  function Pick<A>(s: seq<A>, n: nat, p: nat): seq<A>
    requires n > 0
  {
    if s == [] then []
    else Pick(s[..|s| - 1], n, p) + (if (|s| - 1) % n == p then [s[|s| - 1]] else [])
  }

  /** What is partitioned: lines of text, or elements of a JSON array. */
  datatype Item = Line(text: string) | Element(value: Value)

  datatype Mode = Csv(header: string) | JsonLines | JsonArray

  /** The items of an input and how to read one of them. */
  datatype Plan = Plan(items: seq<Item>, mode: Mode)

  function NormalizeJson(v: Value): Value {
    if v.Object? then v else Object(map["value" := v])
  }

  function ReadItem(tx: TextFns, mode: Mode): Item -> Result<seq<Value>, string> {
    (item: Item) =>
      match item
      case Element(v) => Ok([NormalizeJson(v)])
      case Line(text) =>
        if mode.Csv? then Ok([tx.csvRow(mode.header, text)])
        else if tx.blank(text) then Ok([])
        else
          match tx.parseJson(text)
          case None => Err("failed to parse json line")
          case Some(v) => Ok([NormalizeJson(v)])
  }

  function AsLines(lines: seq<string>): seq<Item> {
    seq(|lines|, i requires 0 <= i < |lines| => Line(lines[i]))
  }

  function AsElements(vs: seq<Value>): seq<Item> {
    seq(|vs|, i requires 0 <= i < |vs| => Element(vs[i]))
  }

  function DataLines(tx: TextFns, lines: seq<string>): seq<string> {
    Filter(lines, (l: string) => !tx.blank(l))
  }

  function Header(text: string): string {
    text[..FirstOf(text, '\n')]
  }

  function AfterHeader(text: string): string {
    var at := FirstOf(text, '\n');
    if at < |text| then text[at + 1..] else []
  }

  function PlanCsv(tx: TextFns, text: string): Result<Plan, string> {
    if tx.blank(Header(text)) then Err("CSV header is empty")
    else Ok(Plan(AsLines(DataLines(tx, Lines(AfterHeader(text), '\n', '\r'))), Csv(Header(text))))
  }

  function ReadPlan(tx: TextFns, plan: Result<Plan, string>, n: nat, p: nat): Result<seq<Value>, string>
    requires n > 0
  {
    match plan
    case Err(e) => Err(e)
    case Ok(plan) => Traverse(Pick(plan.items, n, p), ReadItem(tx, plan.mode))
  }

  /** Blank CSV lines do not count; in JSON lines they take part in the numbering. */
  function PlanRead(tx: TextFns, format: string, file: Option<string>): Result<Plan, string> {
    if file.None? then Err("opening input")
    else
      var text := file.value;
      if format == "csv" then
        PlanCsv(tx, text)
      else if format == "jsonl" || format == "ndjson" then
        Ok(Plan(AsLines(Lines(text, '\n', '\r')), JsonLines))
      else if format == "json" then
        if tx.startsArray(text) then
          (match tx.parseArray(text)
           case None => Err("parsing json array input")
           case Some(vs) => Ok(Plan(AsElements(vs), JsonArray)))
        else Ok(Plan(AsLines(Lines(text, '\n', '\r')), JsonLines))
      else Err("unsupported format")
  }

  /** The records of partition `p` of `n`. */
  function ReadPartition(tx: TextFns, format: string, file: Option<string>, n: nat, p: nat): Result<seq<Value>, string>
    requires n > 0
  {
    ReadPlan(tx, PlanRead(tx, format, file), n, p)
  }

  /** The item loop: counts every item and reads those of its own partition. */
  method ReadItems(tx: TextFns, mode: Mode, items: seq<Item>, n: nat, p: nat) returns (r: Result<seq<Value>, string>)
    requires n > 0
    ensures r == Traverse(Pick(items, n, p), ReadItem(tx, mode))
  {
    ghost var f := ReadItem(tx, mode);
    var records: seq<Value> := [];
    for idx := 0 to |items|
      invariant Traverse(Pick(items[..idx], n, p), f) == Ok(records)
    {
      assert items[..idx + 1] == items[..idx] + [items[idx]];
      PickAppend(items[..idx], items[idx], n, p);
      if idx % n == p {
        TraverseAppend(Pick(items[..idx], n, p), items[idx], f);
        var more := ReadItem(tx, mode)(items[idx]);
        if more.Err? {
          FailsEarly(items, n, p, idx + 1, f);
          return Err(more.error);
        }
        records := records + more.value;
      } else {
        assert Pick(items[..idx], n, p) + [] == Pick(items[..idx], n, p);
      }
    }
    assert items[..|items|] == items;
    r := Ok(records);
  }

  lemma FailsEarly(items: seq<Item>, n: nat, p: nat, k: nat, f: Item -> Result<seq<Value>, string>)
    requires n > 0 && k <= |items| && Traverse(Pick(items[..k], n, p), f).Err?
    ensures Traverse(Pick(items, n, p), f) == Traverse(Pick(items[..k], n, p), f)
  {
    var part, all := Pick(items[..k], n, p), Pick(items, n, p);
    PickPrefix(items, n, p, k);
    assert all[..|part|] == part;
    TraverseFails(all, f, |part|);
  }

  lemma {:induction false} PickPrefix<A>(s: seq<A>, n: nat, p: nat, k: nat)
    requires n > 0 && k <= |s|
    ensures Pick(s[..k], n, p) <= Pick(s, n, p)
    decreases |s|
  {
    if k == |s| {
      assert s[..k] == s;
    } else {
      assert s[..|s| - 1][..k] == s[..k];
      PickPrefix(s[..|s| - 1], n, p, k);
    }
  }

  /** The CSV loop: skips blank lines and numbers the others. */
  method ReadCsvLines(tx: TextFns, header: string, lines: seq<string>, n: nat, p: nat) returns (records: seq<Value>)
    requires n > 0
    ensures Ok(records) == Traverse(Pick(AsLines(DataLines(tx, lines)), n, p), ReadItem(tx, Csv(header)))
  {
    records := [];
    var dataIdx := 0;
    ghost var kept: seq<string> := [];
    ghost var f := ReadItem(tx, Csv(header));
    for i := 0 to |lines|
      invariant kept == DataLines(tx, lines[..i]) && dataIdx == |kept|
      invariant Traverse(Pick(AsLines(kept), n, p), f) == Ok(records)
    {
      assert lines[..i + 1][..i] == lines[..i];
      if !tx.blank(lines[i]) {
        ghost var items := AsLines(kept);
        assert AsLines(kept + [lines[i]]) == items + [Line(lines[i])];
        PickAppend(items, Line(lines[i]), n, p);
        if dataIdx % n == p {
          ghost var picked := Pick(items, n, p);
          assert (picked + [Line(lines[i])])[..|picked|] == picked;
          records := records + [tx.csvRow(header, lines[i])];
        } else {
          assert Pick(items, n, p) + [] == Pick(items, n, p);
        }
        kept := kept + [lines[i]];
        dataIdx := dataIdx + 1;
      }
    }
    assert lines[..|lines|] == lines;
  }

  lemma PickAppend<A>(s: seq<A>, x: A, n: nat, p: nat)
    requires n > 0
    ensures Pick(s + [x], n, p) == Pick(s, n, p) + (if |s| % n == p then [x] else [])
  {
    assert (s + [x])[..|s|] == s;
  }

  method ReadCsv(tx: TextFns, text: string, n: nat, p: nat) returns (r: Result<seq<Value>, string>)
    requires n > 0
    ensures r == ReadPlan(tx, PlanCsv(tx, text), n, p)
  {
    if tx.blank(Header(text)) {
      return Err("CSV header is empty");
    }
    var records := ReadCsvLines(tx, Header(text), Lines(AfterHeader(text), '\n', '\r'), n, p);
    r := Ok(records);
  }

  /** `ReadOp::execute`. */
  method ExecuteRead(tx: TextFns, format: string, file: Option<string>, n: nat, p: nat)
    returns (r: Result<seq<Value>, string>)
    requires n > 0
    ensures r == ReadPartition(tx, format, file, n, p)
  {
    if file.None? {
      return Err("opening input");
    }
    var text := file.value;
    if format == "csv" {
      r := ReadCsv(tx, text, n, p);
    } else if format == "jsonl" || format == "ndjson" {
      r := ReadItems(tx, JsonLines, AsLines(Lines(text, '\n', '\r')), n, p);
    } else if format == "json" {
      if tx.startsArray(text) {
        var vs := tx.parseArray(text);
        if vs.None? {
          return Err("parsing json array input");
        }
        r := ReadItems(tx, JsonArray, AsElements(vs.value), n, p);
      } else {
        r := ReadItems(tx, JsonLines, AsLines(Lines(text, '\n', '\r')), n, p);
      }
    } else {
      r := Err("unsupported format");
    }
  }

  // ----- the number of partitions does not matter

  /** What one item becomes after the whole chain. */
  function ItemChain(tx: TextFns, mode: Mode, ops: seq<OperatorType>): Item -> Result<seq<Value>, string>
    requires ChainOps(ops)
  {
    (item: Item) =>
      match ReadItem(tx, mode)(item)
      case Err(e) => Err(e)
      case Ok(vs) => Chain(tx, ops, vs)
  }

  /** The records of an item that reads and transforms without error. */
  function ItemRecords(tx: TextFns, mode: Mode, ops: seq<OperatorType>): Item -> seq<Value>
    requires ChainOps(ops)
  {
    (item: Item) => if ItemChain(tx, mode, ops)(item).Ok? then ItemChain(tx, mode, ops)(item).value else []
  }

  function ChainItems(tx: TextFns, mode: Mode, ops: seq<OperatorType>, items: seq<Item>): Result<seq<Value>, string>
    requires ChainOps(ops)
  {
    match Traverse(items, ReadItem(tx, mode))
    case Err(e) => Err(e)
    case Ok(recs) => Chain(tx, ops, recs)
  }

  lemma ChainOneMore(tx: TextFns, mode: Mode, ops: seq<OperatorType>, items: seq<Item>, x: Item)
    requires ChainOps(ops)
    ensures ChainItems(tx, mode, ops, items + [x]).Ok? <==>
            ChainItems(tx, mode, ops, items).Ok? && ItemChain(tx, mode, ops)(x).Ok?
    ensures ChainItems(tx, mode, ops, items + [x]).Ok? ==>
              ChainItems(tx, mode, ops, items + [x]).value ==
                ChainItems(tx, mode, ops, items).value + ItemChain(tx, mode, ops)(x).value
  {
    var a, b := Traverse(items, ReadItem(tx, mode)), ReadItem(tx, mode)(x);
    assert (items + [x])[..|items|] == items;
    if a.Ok? && b.Ok? {
      ChainConcat(tx, ops, a.value, b.value);
    }
  }

  /** A read and a chain succeed exactly when they succeed on every item, and they concatenate the item results. */
  lemma {:induction false} ChainItemwise(tx: TextFns, mode: Mode, ops: seq<OperatorType>, items: seq<Item>)
    requires ChainOps(ops) && AllBuild(tx, ops)
    ensures ChainItems(tx, mode, ops, items).Ok? <==> forall x :: x in items ==> ItemChain(tx, mode, ops)(x).Ok?
    ensures ChainItems(tx, mode, ops, items).Ok? ==>
              ChainItems(tx, mode, ops, items).value == Expand(items, ItemRecords(tx, mode, ops))
  {
    if items == [] {
      ChainOfNothing(tx, ops);
    } else {
      var init, x := items[..|items| - 1], items[|items| - 1];
      assert items == init + [x];
      ChainItemwise(tx, mode, ops, init);
      ChainOneMore(tx, mode, ops, init, x);
    }
  }

  lemma {:induction false} InPick<A>(s: seq<A>, n: nat, p: nat, x: A)
    requires n > 0
    ensures x in Pick(s, n, p) ==> x in s
  {
    if s == [] {
    } else {
      assert s == s[..|s| - 1] + [s[|s| - 1]];
      InPick(s[..|s| - 1], n, p, x);
    }
  }

  lemma {:induction false} InSomePick<A>(s: seq<A>, n: nat, x: A) returns (p: nat)
    requires n > 0 && x in s
    ensures p < n && x in Pick(s, n, p)
  {
    var init, last := s[..|s| - 1], s[|s| - 1];
    assert s == init + [last];
    if x == last {
      p := (|s| - 1) % n;
    } else {
      p := InSomePick(init, n, x);
    }
  }

  ghost function PerPick<A, B>(s: seq<A>, n: nat, f: A -> seq<B>): nat -> multiset<B>
    requires n > 0
  {
    (p: nat) => multiset(Expand(Pick(s, n, p), f))
  }

  /** The partitions hold every item once. */
  lemma {:induction false} ExpandByPick<A, B>(s: seq<A>, n: nat, f: A -> seq<B>)
    requires n > 0
    ensures SumOver(n, PerPick(s, n, f)) == multiset(Expand(s, f))
  {
    var g := PerPick(s, n, f);
    if s == [] {
      SumZero(n, g);
    } else {
      var init, x := s[..|s| - 1], s[|s| - 1];
      var g0, at := PerPick(init, n, f), |init| % n;
      assert s == init + [x];
      ExpandByPick(init, n, f);
      forall p: nat | p < n ensures g(p) == if p == at then g0(p) + multiset(f(x)) else g0(p) {
        PickAppend(init, x, n, p);
        if p == at {
          ExpandConcat(Pick(init, n, p), [x], f);
          assert Expand([x], f) == f(x);
        } else {
          assert Pick(s, n, p) == Pick(init, n, p);
        }
      }
      SumUpdate(n, g0, g, at, multiset(f(x)));
    }
  }

  lemma {:induction false} PickAll<A>(s: seq<A>)
    ensures Pick(s, 1, 0) == s
  {
    if s == [] {
    } else {
      PickAll(s[..|s| - 1]);
    }
  }

  /** The output of task `p` of `n`: read its partition and run the chain. */
  function TaskOutput(tx: TextFns, format: string, file: Option<string>, ops: seq<OperatorType>, n: nat, p: nat)
    : Result<seq<Value>, string>
    requires n > 0 && ChainOps(ops)
  {
    match ReadPartition(tx, format, file, n, p)
    case Err(e) => Err(e)
    case Ok(recs) => Chain(tx, ops, recs)
  }

  ghost function OutputPerTask(tx: TextFns, format: string, file: Option<string>, ops: seq<OperatorType>, n: nat)
    : nat -> multiset<Value>
    requires n > 0 && ChainOps(ops)
  {
    (p: nat) =>
      var out := TaskOutput(tx, format, file, ops, n, p);
      if out.Ok? then multiset(out.value) else multiset{}
  }

  /** Reading and transforming partition `p` succeeds. */
  ghost predicate PartSucceeds(tx: TextFns, mode: Mode, ops: seq<OperatorType>, items: seq<Item>, n: nat, p: nat)
    requires n > 0 && ChainOps(ops)
  {
    ChainItems(tx, mode, ops, Pick(items, n, p)).Ok?
  }

  lemma PartsSucceedTogether(tx: TextFns, mode: Mode, ops: seq<OperatorType>, items: seq<Item>, n: nat)
    requires n > 0 && ChainOps(ops) && AllBuild(tx, ops)
    ensures (forall p :: 0 <= p < n ==> PartSucceeds(tx, mode, ops, items, n, p)) <==>
            ChainItems(tx, mode, ops, items).Ok?
  {
    var fine := (x: Item) => ItemChain(tx, mode, ops)(x).Ok?;
    ChainItemwise(tx, mode, ops, items);
    assert ChainItems(tx, mode, ops, items).Ok? <==> HoldsOn(items, fine);
    forall p | 0 <= p < n ensures PartSucceeds(tx, mode, ops, items, n, p) <==> HoldsInPart(items, n, p, fine) {
      ChainItemwise(tx, mode, ops, Pick(items, n, p));
    }
    SplitForall(items, n, fine);
  }

  /** All tasks succeed exactly when the single-partition run does. */
  lemma TasksSucceedTogether(tx: TextFns, format: string, file: Option<string>, ops: seq<OperatorType>, n: nat)
    requires n > 0 && ChainOps(ops)
    ensures (forall p :: 0 <= p < n ==> TaskOutput(tx, format, file, ops, n, p).Ok?) <==>
            TaskOutput(tx, format, file, ops, 1, 0).Ok?
  {
    var plan := PlanRead(tx, format, file);
    if plan.Err? {
      assert TaskOutput(tx, format, file, ops, n, 0).Err?;
    } else if AllBuild(tx, ops) {
      var items, mode := plan.value.items, plan.value.mode;
      PickAll(items);
      PartsSucceedTogether(tx, mode, ops, items, n);
      assert TaskOutput(tx, format, file, ops, 1, 0) == ChainItems(tx, mode, ops, items);
      assert forall p :: 0 <= p < n ==>
             (TaskOutput(tx, format, file, ops, n, p).Ok? <==> PartSucceeds(tx, mode, ops, items, n, p));
    } else {
      NeverBuilds(tx, format, file, ops, 1, 0);
      NeverBuilds(tx, format, file, ops, n, 0);
    }
  }

  lemma NeverBuilds(tx: TextFns, format: string, file: Option<string>, ops: seq<OperatorType>, n: nat, p: nat)
    requires n > 0 && ChainOps(ops) && !AllBuild(tx, ops)
    ensures TaskOutput(tx, format, file, ops, n, p).Err?
  {
    var recs := ReadPartition(tx, format, file, n, p);
    if recs.Ok? {
      ChainNeedsBuild(tx, ops, recs.value);
    }
  }

  ghost predicate HoldsOn<A>(s: seq<A>, q: A -> bool) {
    forall x :: x in s ==> q(x)
  }

  ghost predicate HoldsInPart<A>(s: seq<A>, n: nat, p: nat, q: A -> bool)
    requires n > 0
  {
    HoldsOn(Pick(s, n, p), q)
  }

  /** A property holds of every item exactly when it holds in every partition. */
  lemma SplitForall<A>(s: seq<A>, n: nat, q: A -> bool)
    requires n > 0
    ensures HoldsOn(s, q) <==> forall p :: 0 <= p < n ==> HoldsInPart(s, n, p, q)
  {
    if forall p :: 0 <= p < n ==> HoldsInPart(s, n, p, q) {
      forall x | x in s ensures q(x) {
        var p := InSomePick(s, n, x);
        assert HoldsInPart(s, n, p, q);
      }
    } else {
      var p :| 0 <= p < n && !HoldsInPart(s, n, p, q);
      var x :| x in Pick(s, n, p) && !q(x);
      InPick(s, n, p, x);
      assert !HoldsOn(s, q);
    }
  }

  /** The tasks output together what one partition outputs. */
  lemma PartitionCountInvariance(tx: TextFns, format: string, file: Option<string>, ops: seq<OperatorType>, n: nat)
    requires n > 0 && ChainOps(ops)
    requires TaskOutput(tx, format, file, ops, 1, 0).Ok?
    ensures SumOver(n, OutputPerTask(tx, format, file, ops, n)) ==
            multiset(TaskOutput(tx, format, file, ops, 1, 0).value)
  {
    var plan := PlanRead(tx, format, file).value;
    var f := ItemRecords(tx, plan.mode, ops);
    PickAll(plan.items);
    ChainNeedsBuild(tx, ops, ReadPartition(tx, format, file, 1, 0).value);
    ChainItemwise(tx, plan.mode, ops, plan.items);
    TasksSucceedTogether(tx, format, file, ops, n);
    ExpandByPick(plan.items, n, f);
    forall p: nat | p < n ensures OutputPerTask(tx, format, file, ops, n)(p) == PerPick(plan.items, n, f)(p) {
      ChainItemwise(tx, plan.mode, ops, Pick(plan.items, n, p));
    }
    SumExt(n, OutputPerTask(tx, format, file, ops, n), PerPick(plan.items, n, f));
  }

  /** What a task outputs, item by item. */
  lemma TaskSplit(tx: TextFns, format: string, file: Option<string>, ops: seq<OperatorType>, n: nat, p: nat)
    requires n > 0 && ChainOps(ops) && TaskOutput(tx, format, file, ops, n, p).Ok?
    ensures PlanRead(tx, format, file).Ok?
    ensures var plan := PlanRead(tx, format, file).value;
            TaskOutput(tx, format, file, ops, n, p).value ==
              Expand(Pick(plan.items, n, p), ItemRecords(tx, plan.mode, ops))
  {
    var plan := PlanRead(tx, format, file).value;
    ChainNeedsBuild(tx, ops, ReadPartition(tx, format, file, n, p).value);
    ChainItemwise(tx, plan.mode, ops, Pick(plan.items, n, p));
  }
}
