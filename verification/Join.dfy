/** The hash join: its loops, the nested-loop join it refines, and where the two differ. */
module Join {
  import opened Prelude
  import opened Dag
  import opened Values
  import opened Platform
  import opened Buckets

  datatype JoinError = WrongInputCount(n: nat) | NonObject | MissingKey(key: string) | InvalidKey

  /** A record with the text of its join key. */
  datatype Row = Row(key: string, fields: Fields)

  // ----- records

  function ExtractKey(rt: Runtime, fields: Fields, key: string): Result<string, JoinError> {
    if key !in fields then Err(MissingKey(key))
    else
      match fields[key]
      case Str(s) => Ok(s)
      case Num(n) => Ok(rt.numText(n))
      case _ => Err(InvalidKey)
  }

  function ToRow(rt: Runtime, key: string, rec: Value): Result<Row, JoinError> {
    if !rec.Object? then Err(NonObject)
    else
      match ExtractKey(rt, rec.fields, key)
      case Err(e) => Err(e)
      case Ok(k) => Ok(Row(k, rec.fields))
  }

  /** All rows, or the error of the first record that has none. */
  function ToRows(rt: Runtime, key: string, recs: seq<Value>): Result<seq<Row>, JoinError> {
    if recs == [] then Ok([])
    else
      match ToRows(rt, key, recs[..|recs| - 1])
      case Err(e) => Err(e)
      case Ok(rows) =>
        match ToRow(rt, key, recs[|recs| - 1])
        case Err(e) => Err(e)
        case Ok(row) => Ok(rows + [row])
  }

  function PrefixFields(fields: Fields, prefix: string): Fields {
    var keys := set k | k in fields :: prefix + k;
    assert forall k :: k in fields ==> (prefix + k)[|prefix|..] == k;
    map k | k in keys :: fields[k[|prefix|..]]
  }

  const LEFT := "left_"
  const RIGHT := "right_"

  function CombineRecords(left: Fields, right: Fields): Fields {
    PrefixFields(left, LEFT) + PrefixFields(right, RIGHT)
  }

  function CombineLeftOnly(left: Fields): Fields {
    PrefixFields(left, LEFT)[RIGHT + "missing" := Null]
  }

  function CombineRightOnly(right: Fields): Fields {
    PrefixFields(right, RIGHT)[LEFT + "missing" := Null]
  }

  // ----- the join on rows

  function Matches(right: seq<Row>, k: string): seq<Row> {
    Filter(right, (r: Row) => r.key == k)
  }

  predicate HasKey(rows: seq<Row>, k: string) {
    exists r :: r in rows && r.key == k
  }

  function Pair(l: Row, r: Row): Value {
    Object(CombineRecords(l.fields, r.fields))
  }

  /** `l` combined with each of `matches`. */
  function PairAll(l: Row, matches: seq<Row>): seq<Value> {
    if matches == [] then [] else PairAll(l, matches[..|matches| - 1]) + [Pair(l, matches[|matches| - 1])]
  }

  predicate KeepsLeft(jt: JoinType) {
    jt.Left? || jt.Full?
  }

  predicate KeepsRight(jt: JoinType) {
    jt.Right? || jt.Full?
  }

  /** The rows one left row contributes. */
  function RowsFor(jt: JoinType, right: seq<Row>, l: Row): seq<Value> {
    var m := Matches(right, l.key);
    if m != [] then PairAll(l, m)
    else if KeepsLeft(jt) then [Object(CombineLeftOnly(l.fields))]
    else []
  }

  function RowsOf(jt: JoinType, right: seq<Row>): Row -> seq<Value> {
    l => RowsFor(jt, right, l)
  }

  function LeftPart(jt: JoinType, left: seq<Row>, right: seq<Row>): seq<Value> {
    Expand(left, RowsOf(jt, right))
  }

  /** The code marks only the first of several equal right rows as matched. */
  predicate Marked(left: seq<Row>, right: seq<Row>, j: nat)
    requires j < |right|
  {
    HasKey(left, right[j].key) && right[j] !in right[..j]
  }

  /** Right rows the code emits as unmatched. */
  function CodeRight(left: seq<Row>, right: seq<Row>): seq<Value> {
    if right == [] then []
    else
      CodeRight(left, right[..|right| - 1]) +
      (if Marked(left, right, |right| - 1) then [] else [Object(CombineRightOnly(right[|right| - 1].fields))])
  }

  /** Right rows without a partner on the left. */
  function UnmatchedRight(left: seq<Row>, right: seq<Row>): seq<Value> {
    if right == [] then []
    else
      UnmatchedRight(left, right[..|right| - 1]) +
      (if HasKey(left, right[|right| - 1].key) then [] else [Object(CombineRightOnly(right[|right| - 1].fields))])
  }

  /** What the code outputs. */
  function CodeJoin(jt: JoinType, left: seq<Row>, right: seq<Row>): seq<Value> {
    LeftPart(jt, left, right) + (if KeepsRight(jt) then CodeRight(left, right) else [])
  }

  /** The inner loop of a nested-loop join: `l` against every right row with the same key. */
  function Line(c: (Row, Row) -> Value, l: Row, right: seq<Row>): seq<Value> {
    if right == [] then []
    else
      var r := right[|right| - 1];
      Line(c, l, right[..|right| - 1]) + (if l.key == r.key then [c(l, r)] else [])
  }

  function Paired(): (Row, Row) -> Value {
    (l, r) => Pair(l, r)
  }

  /** The outer loop, with the left-only row of a left or full join. */
  function NestedLeft(jt: JoinType, left: seq<Row>, right: seq<Row>): seq<Value> {
    if left == [] then []
    else
      var l := left[|left| - 1];
      NestedLeft(jt, left[..|left| - 1], right) +
      (if HasKey(right, l.key) then Line(Paired(), l, right)
       else if KeepsLeft(jt) then [Object(CombineLeftOnly(l.fields))]
       else [])
  }

  /** The nested-loop relational join. */
  function NestedLoopJoin(jt: JoinType, left: seq<Row>, right: seq<Row>): seq<Value> {
    NestedLeft(jt, left, right) + (if KeepsRight(jt) then UnmatchedRight(left, right) else [])
  }

  /** The outcome of the operator on its input partitions. */
  function JoinOutcome(rt: Runtime, key: string, jt: JoinType, parts: seq<Partition>)
    : Result<seq<Partition>, JoinError>
  {
    if |parts| != 2 then Err(WrongInputCount(|parts|))
    else
      match ToRows(rt, key, parts[1].records)
      case Err(e) => Err(e)
      case Ok(right) =>
        match ToRows(rt, key, parts[0].records)
        case Err(e) => Err(e)
        case Ok(left) =>
          var pid := if parts[0].id <= parts[1].id then parts[0].id else parts[1].id;
          Ok([Partition(pid, CodeJoin(jt, left, right))])
  }

  // ----- the loops

  lemma {:induction false} ToRowsFails(rt: Runtime, key: string, recs: seq<Value>, k: nat)
    requires k <= |recs| && ToRows(rt, key, recs[..k]).Err?
    ensures ToRows(rt, key, recs) == ToRows(rt, key, recs[..k])
    decreases |recs|
  {
    if k == |recs| {
      assert recs[..k] == recs;
    } else {
      assert recs[..|recs| - 1][..k] == recs[..k];
      ToRowsFails(rt, key, recs[..|recs| - 1], k);
    }
  }

  /** Fills the hash map and the index from the right records. */
  method IndexRight(rt: Runtime, key: string, recs: seq<Value>)
    returns (r: Result<seq<Row>, JoinError>, rightMap: map<string, seq<Row>>)
    ensures r == ToRows(rt, key, recs)
    ensures r.Ok? ==> forall k :: k in rightMap <==> Matches(r.value, k) != []
    ensures r.Ok? ==> forall k :: k in rightMap ==> rightMap[k] == Matches(r.value, k)
  {
    var index: seq<Row> := [];
    rightMap := map[];
    for i := 0 to |recs|
      invariant ToRows(rt, key, recs[..i]) == Ok(index)
      invariant forall k :: k in rightMap <==> Matches(index, k) != []
      invariant forall k :: k in rightMap ==> rightMap[k] == Matches(index, k)
    {
      assert recs[..i + 1][..i] == recs[..i];
      var row := ToRow(rt, key, recs[i]);
      if row.Err? {
        ToRowsFails(rt, key, recs, i + 1);
        return Err(row.error), rightMap;
      }
      var k0 := row.value.key;
      forall k ensures Matches(index + [row.value], k) == Matches(index, k) + (if k0 == k then [row.value] else []) {
        MatchesAppend(index, row.value, k);
      }
      rightMap := rightMap[k0 := (if k0 in rightMap then rightMap[k0] else []) + [row.value]];
      index := index + [row.value];
    }
    assert recs[..|recs|] == recs;
    r := Ok(index);
  }

  lemma MatchesAppend(rows: seq<Row>, row: Row, k: string)
    ensures Matches(rows + [row], k) == Matches(rows, k) + (if row.key == k then [row] else [])
  {
    assert (rows + [row])[..|rows|] == rows;
  }

  /** Position of the first row equal to `row`. */
  method Position(index: seq<Row>, row: Row) returns (pos: Option<nat>)
    ensures pos.Some? <==> row in index
    ensures pos.Some? ==> pos.value < |index| && index[pos.value] == row && row !in index[..pos.value]
  {
    for i := 0 to |index|
      invariant row !in index[..i]
    {
      if index[i] == row {
        return Some(i);
      }
    }
    pos := None;
  }

  /** Emits one left row against its matches and marks them. */
  method EmitMatches(l: Row, matches: seq<Row>, index: seq<Row>, marks: seq<bool>)
    returns (marks': seq<bool>, output: seq<Value>)
    requires |marks| == |index|
    ensures |marks'| == |index|
    ensures output == PairAll(l, matches)
    ensures forall j :: 0 <= j < |index| ==>
              (marks'[j] <==> marks[j] || (index[j] in matches && index[j] !in index[..j]))
  {
    marks', output := marks, [];
    for i := 0 to |matches|
      invariant |marks'| == |index|
      invariant output == PairAll(l, matches[..i])
      invariant forall j :: 0 <= j < |index| ==>
                  (marks'[j] <==> marks[j] || (index[j] in matches[..i] && index[j] !in index[..j]))
    {
      assert matches[..i + 1] == matches[..i] + [matches[i]];
      assert matches[..i + 1][..i] == matches[..i];
      var pos := Position(index, matches[i]);
      if pos.Some? {
        FirstPosition(index, matches[i], pos.value);
        marks' := marks'[pos.value := true];
      }
      output := output + [Pair(l, matches[i])];
    }
    assert matches[..|matches|] == matches;
  }

  lemma FirstPosition(index: seq<Row>, row: Row, pos: nat)
    requires pos < |index| && index[pos] == row && row !in index[..pos]
    ensures forall j :: 0 <= j < |index| ==> (j == pos <==> index[j] == row && row !in index[..j])
  {
    forall j | 0 <= j < pos ensures index[j] != row {
      assert index[..pos][j] == index[j];
    }
    forall j | pos < j < |index| ensures row in index[..j] {
      assert index[..j][pos] == row;
    }
  }

  lemma {:induction false} InMatches(rows: seq<Row>, k: string, r: Row)
    ensures r in Matches(rows, k) <==> r in rows && r.key == k
  {
    FilterMember(rows, (x: Row) => x.key == k, r);
  }

  lemma HasKeyIffMatches(rows: seq<Row>, k: string)
    ensures HasKey(rows, k) <==> Matches(rows, k) != []
  {
    if Matches(rows, k) != [] {
      InMatches(rows, k, Matches(rows, k)[0]);
    }
    if HasKey(rows, k) {
      var r :| r in rows && r.key == k;
      InMatches(rows, k, r);
    }
  }

  lemma HasKeyAppend(rows: seq<Row>, row: Row, k: string)
    ensures HasKey(rows + [row], k) <==> HasKey(rows, k) || row.key == k
  {
    if HasKey(rows, k) {
      var r :| r in rows && r.key == k;
      assert r in rows + [row];
    }
    assert row in rows + [row];
  }

  /** Probes the map with one left row. */
  method ProbeRow(l: Row, jt: JoinType, index: seq<Row>, rightMap: map<string, seq<Row>>, marks: seq<bool>)
    returns (marks': seq<bool>, emitted: seq<Value>)
    requires forall k :: k in rightMap <==> Matches(index, k) != []
    requires forall k :: k in rightMap ==> rightMap[k] == Matches(index, k)
    requires |marks| == |index|
    ensures emitted == RowsOf(jt, index)(l)
    ensures |marks'| == |index|
    ensures forall j :: 0 <= j < |index| ==>
            (marks'[j] <==> marks[j] || (index[j].key == l.key && index[j] !in index[..j]))
  {
    MarksForKey(index, l.key);
    marks', emitted := marks, [];
    if l.key in rightMap {
      marks', emitted := EmitMatches(l, rightMap[l.key], index, marks);
    } else if jt.Left? || jt.Full? {
      emitted := [Object(CombineLeftOnly(l.fields))];
    }
  }

  /** Exactly the first copies of rows with a partner in `left` are marked. */
  ghost predicate MarksOf(left: seq<Row>, index: seq<Row>, marks: seq<bool>) {
    |marks| == |index| && forall j :: 0 <= j < |index| ==> (marks[j] <==> Marked(left, index, j))
  }

  lemma MarksStep(left: seq<Row>, l: Row, index: seq<Row>, marks: seq<bool>, marks': seq<bool>)
    requires MarksOf(left, index, marks) && |marks'| == |index|
    requires forall j :: 0 <= j < |index| ==>
             (marks'[j] <==> marks[j] || (index[j].key == l.key && index[j] !in index[..j]))
    ensures MarksOf(left + [l], index, marks')
  {
    forall j | 0 <= j < |index| ensures marks'[j] <==> Marked(left + [l], index, j) {
      HasKeyAppend(left, l, index[j].key);
    }
  }

  /** Probes the map with every left row. */
  method ProbeLeft(rt: Runtime, key: string, jt: JoinType, recs: seq<Value>, index: seq<Row>,
                   rightMap: map<string, seq<Row>>)
    returns (r: Result<seq<Value>, JoinError>, marks: seq<bool>)
    requires forall k :: k in rightMap <==> Matches(index, k) != []
    requires forall k :: k in rightMap ==> rightMap[k] == Matches(index, k)
    ensures ToRows(rt, key, recs).Err? ==> r == Err(ToRows(rt, key, recs).error)
    ensures ToRows(rt, key, recs).Ok? ==> r == Ok(LeftPart(jt, ToRows(rt, key, recs).value, index))
    ensures r.Ok? ==> |marks| == |index|
    ensures r.Ok? ==> forall j :: 0 <= j < |index| ==> (marks[j] <==> Marked(ToRows(rt, key, recs).value, index, j))
  {
    marks := seq(|index|, _ => false);
    var output: seq<Value> := [];
    ghost var left: seq<Row> := [];
    for i := 0 to |recs|
      invariant ToRows(rt, key, recs[..i]) == Ok(left)
      invariant output == LeftPart(jt, left, index)
      invariant MarksOf(left, index, marks)
    {
      assert recs[..i + 1][..i] == recs[..i];
      var row := ToRow(rt, key, recs[i]);
      if row.Err? {
        ToRowsFails(rt, key, recs, i + 1);
        return Err(row.error), marks;
      }
      var marks', emitted := ProbeRow(row.value, jt, index, rightMap, marks);
      MarksStep(left, row.value, index, marks, marks');
      assert (left + [row.value])[..|left|] == left;
      marks, output := marks', output + emitted;
      left := left + [row.value];
    }
    assert recs[..|recs|] == recs;
    r := Ok(output);
  }

  lemma MarksForKey(index: seq<Row>, k: string)
    ensures forall j :: 0 <= j < |index| ==> (index[j] in Matches(index, k) <==> index[j].key == k)
  {
    forall j | 0 <= j < |index| ensures index[j] in Matches(index, k) <==> index[j].key == k {
      InMatches(index, k, index[j]);
    }
  }

  lemma {:induction false} CodeRightMarks(left: seq<Row>, right: seq<Row>, j: nat)
    requires j < |right|
    ensures CodeRight(left, right[..j + 1]) ==
            CodeRight(left, right[..j]) +
              (if Marked(left, right, j) then [] else [Object(CombineRightOnly(right[j].fields))])
  {
    var p := right[..j + 1];
    assert p[..j] == right[..j];
  }

  /** Emits the right rows that were not marked. */
  method EmitUnmatched(index: seq<Row>, marks: seq<bool>, ghost left: seq<Row>) returns (output: seq<Value>)
    requires |marks| == |index|
    requires forall j :: 0 <= j < |index| ==> (marks[j] <==> Marked(left, index, j))
    ensures output == CodeRight(left, index)
  {
    output := [];
    for j := 0 to |index|
      invariant output == CodeRight(left, index[..j])
    {
      CodeRightMarks(left, index, j);
      if !marks[j] {
        output := output + [Object(CombineRightOnly(index[j].fields))];
      }
    }
    assert index[..|index|] == index;
  }

  /** `JoinOp::execute`. */
  method ExecuteJoin(rt: Runtime, key: string, jt: JoinType, parts: seq<Partition>)
    returns (r: Result<seq<Partition>, JoinError>)
    ensures r == JoinOutcome(rt, key, jt, parts)
  {
    if |parts| != 2 {
      return Err(WrongInputCount(|parts|));
    }
    var right, rightMap := IndexRight(rt, key, parts[1].records);
    if right.Err? {
      return Err(right.error);
    }
    var probed, marks := ProbeLeft(rt, key, jt, parts[0].records, right.value, rightMap);
    if probed.Err? {
      return Err(probed.error);
    }
    ghost var left := ToRows(rt, key, parts[0].records).value;
    var output := probed.value;
    if jt.Right? || jt.Full? {
      var rest := EmitUnmatched(right.value, marks, left);
      output := output + rest;
    }
    assert output == CodeJoin(jt, left, right.value);
    r := Ok([Partition(if parts[0].id <= parts[1].id then parts[0].id else parts[1].id, output)]);
  }

  // ----- refinement of the nested-loop join

  /** No two equal right rows have a partner on the left. */
  predicate NoMatchedDuplicate(left: seq<Row>, right: seq<Row>) {
    forall j :: 0 <= j < |right| ==> right[j] in right[..j] ==> !HasKey(left, right[j].key)
  }

  lemma {:induction false} CodeRightLonger(left: seq<Row>, right: seq<Row>)
    ensures |CodeRight(left, right)| >= |UnmatchedRight(left, right)|
    ensures |CodeRight(left, right)| == |UnmatchedRight(left, right)| <==> NoMatchedDuplicate(left, right)
    ensures NoMatchedDuplicate(left, right) ==> CodeRight(left, right) == UnmatchedRight(left, right)
  {
    if right == [] {
    } else {
      var init, n := right[..|right| - 1], |right| - 1;
      CodeRightLonger(left, init);
      assert forall j :: 0 <= j < n ==> init[..j] == right[..j] && init[j] == right[j];
      assert right[..n] == init;
      assert NoMatchedDuplicate(left, right) <==>
             NoMatchedDuplicate(left, init) && (right[n] in init ==> !HasKey(left, right[n].key));
    }
  }

  lemma {:induction false} PairAllIsLine(l: Row, right: seq<Row>)
    ensures PairAll(l, Matches(right, l.key)) == Line(Paired(), l, right)
  {
    if right == [] {
    } else {
      var init, r := right[..|right| - 1], right[|right| - 1];
      PairAllIsLine(l, init);
      var m := Matches(init, l.key);
      if r.key == l.key {
        assert (m + [r])[..|m|] == m;
      } else {
        assert m + [] == m;
      }
    }
  }

  /** Probing the hash map emits what the nested loops emit, in the same order. */
  lemma {:induction false} LeftPartIsNested(jt: JoinType, left: seq<Row>, right: seq<Row>)
    ensures LeftPart(jt, left, right) == NestedLeft(jt, left, right)
  {
    if left == [] {
    } else {
      var l := left[|left| - 1];
      LeftPartIsNested(jt, left[..|left| - 1], right);
      PairAllIsLine(l, right);
      HasKeyIffMatches(right, l.key);
    }
  }

  /** The code equals the nested-loop join exactly when it keeps no right rows or no matched right row is repeated. */
  lemma CodeIsNestedLoopIff(jt: JoinType, left: seq<Row>, right: seq<Row>)
    ensures CodeJoin(jt, left, right) == NestedLoopJoin(jt, left, right) <==>
            !KeepsRight(jt) || NoMatchedDuplicate(left, right)
  {
    CodeRightLonger(left, right);
    LeftPartIsNested(jt, left, right);
    var front := LeftPart(jt, left, right);
    assert |front + CodeRight(left, right)| == |front| + |CodeRight(left, right)|;
    assert |front + UnmatchedRight(left, right)| == |front| + |UnmatchedRight(left, right)|;
  }

  lemma RowsOfTwo(rt: Runtime, key: string, a: Value, b: Value)
    requires ToRow(rt, key, a).Ok? && ToRow(rt, key, b).Ok?
    ensures ToRows(rt, key, [a]) == Ok([ToRow(rt, key, a).value])
    ensures ToRows(rt, key, [a, b]) == Ok([ToRow(rt, key, a).value, ToRow(rt, key, b).value])
  {
    var l, r := ToRow(rt, key, a).value, ToRow(rt, key, b).value;
    assert [a, b][..1] == [a] && [a][..0] == [];
    assert ToRows(rt, key, [a][..0]) == Ok([]);
    assert [] + [l] == [l] && [l] + [r] == [l, r];
  }

  /** A record joined with two equal partners: the second partner also comes out as unmatched. */
  lemma DuplicateRightExample(rt: Runtime, key: string, a: Value, b: Value)
    requires ToRow(rt, key, a).Ok? && ToRow(rt, key, b).Ok? &&
             ToRow(rt, key, a).value.key == ToRow(rt, key, b).value.key
    ensures var l, r := ToRow(rt, key, a).value, ToRow(rt, key, b).value;
            var out := JoinOutcome(rt, key, Right, [Partition(0, [a]), Partition(0, [b, b])]);
            out.Ok? && out.value[0].records != NestedLoopJoin(Right, [l], [r, r])
  {
    RowsOfTwo(rt, key, a, b);
    RowsOfTwo(rt, key, b, b);
    var l, r := ToRow(rt, key, a).value, ToRow(rt, key, b).value;
    DuplicateRow(l, r);
  }

  lemma DuplicateRow(l: Row, r: Row)
    requires r.key == l.key
    ensures CodeJoin(Right, [l], [r, r]) != NestedLoopJoin(Right, [l], [r, r])
  {
    var right := [r, r];
    assert l in [l];
    assert right[..1] == [r] && right[1] in right[..1] && HasKey([l], right[1].key);
    CodeIsNestedLoopIff(Right, [l], right);
  }

  // ----- right joins mirror left joins

  /** All pairs, left rows outermost. */
  function Grid(c: (Row, Row) -> Value, left: seq<Row>, right: seq<Row>): seq<Value> {
    if left == [] then [] else Grid(c, left[..|left| - 1], right) + Line(c, left[|left| - 1], right)
  }

  function Flip(c: (Row, Row) -> Value): (Row, Row) -> Value {
    (a, b) => c(b, a)
  }

  lemma {:induction false} LineExt(c: (Row, Row) -> Value, d: (Row, Row) -> Value, l: Row, right: seq<Row>)
    requires forall a, b :: c(a, b) == d(a, b)
    ensures Line(c, l, right) == Line(d, l, right)
  {
    if right == [] {
    } else {
      LineExt(c, d, l, right[..|right| - 1]);
    }
  }

  lemma {:induction false} GridExt(c: (Row, Row) -> Value, d: (Row, Row) -> Value, left: seq<Row>, right: seq<Row>)
    requires forall a, b :: c(a, b) == d(a, b)
    ensures Grid(c, left, right) == Grid(d, left, right)
  {
    if left == [] {
    } else {
      GridExt(c, d, left[..|left| - 1], right);
      LineExt(c, d, left[|left| - 1], right);
    }
  }

  /** One more left row adds its line, also when right rows are outermost. */
  lemma {:induction false} GridWiden(c: (Row, Row) -> Value, right: seq<Row>, left: seq<Row>, l: Row)
    ensures multiset(Grid(Flip(c), right, left + [l])) ==
            multiset(Grid(Flip(c), right, left)) + multiset(Line(c, l, right))
  {
    if right == [] {
    } else {
      var init, r := right[..|right| - 1], right[|right| - 1];
      GridWiden(c, init, left, l);
      assert (left + [l])[..|left|] == left;
    }
  }

  lemma {:induction false} GridTransposes(c: (Row, Row) -> Value, left: seq<Row>, right: seq<Row>)
    ensures multiset(Grid(c, left, right)) == multiset(Grid(Flip(c), right, left))
  {
    if left == [] {
      GridOverNothing(Flip(c), right);
    } else {
      var init, l := left[..|left| - 1], left[|left| - 1];
      GridTransposes(c, init, right);
      GridWiden(c, right, init, l);
      assert left == init + [l];
    }
  }

  lemma {:induction false} GridOverNothing(c: (Row, Row) -> Value, right: seq<Row>)
    ensures Grid(c, right, []) == []
  {
    if right == [] {
    } else {
      GridOverNothing(c, right[..|right| - 1]);
    }
  }

  /** Left rows without a partner, as a left join emits them. */
  function UnmatchedLeft(left: seq<Row>, right: seq<Row>): seq<Value> {
    if left == [] then []
    else
      UnmatchedLeft(left[..|left| - 1], right) +
      (if HasKey(right, left[|left| - 1].key) then [] else [Object(CombineLeftOnly(left[|left| - 1].fields))])
  }

  lemma {:induction false} LineWithoutPartner(c: (Row, Row) -> Value, l: Row, right: seq<Row>)
    requires !HasKey(right, l.key)
    ensures Line(c, l, right) == []
  {
    if right == [] {
    } else {
      var init, r := right[..|right| - 1], right[|right| - 1];
      assert r in right;
      assert forall x :: x in init ==> x in right;
      LineWithoutPartner(c, l, init);
    }
  }

  /** A join's left part is the grid of pairs plus, when left rows are kept, the lonely ones. */
  lemma {:induction false} NestedLeftSplits(jt: JoinType, left: seq<Row>, right: seq<Row>)
    ensures multiset(NestedLeft(jt, left, right)) ==
            multiset(Grid(Paired(), left, right)) +
              (if KeepsLeft(jt) then multiset(UnmatchedLeft(left, right)) else multiset{})
  {
    if left == [] {
    } else {
      var l := left[|left| - 1];
      NestedLeftSplits(jt, left[..|left| - 1], right);
      NestedRowSplits(jt, l, right);
    }
  }

  lemma NestedRowSplits(jt: JoinType, l: Row, right: seq<Row>)
    ensures (if HasKey(right, l.key) then Line(Paired(), l, right)
             else if KeepsLeft(jt) then [Object(CombineLeftOnly(l.fields))]
             else []) ==
            Line(Paired(), l, right) +
            (if KeepsLeft(jt) && !HasKey(right, l.key) then [Object(CombineLeftOnly(l.fields))] else [])
  {
    if !HasKey(right, l.key) {
      LineWithoutPartner(Paired(), l, right);
    }
  }

  /** Exchanges the two prefixes of a field name. */
  function SwapName(k: string): string {
    if LEFT <= k then RIGHT + k[|LEFT|..]
    else if RIGHT <= k then LEFT + k[|RIGHT|..]
    else k
  }

  lemma SwapNameOf(k: string)
    ensures SwapName(LEFT + k) == RIGHT + k && SwapName(RIGHT + k) == LEFT + k
  {
    assert (LEFT + k)[|LEFT|..] == k && (RIGHT + k)[|RIGHT|..] == k;
    assert (RIGHT + k)[0] == 'r' && LEFT[0] == 'l';
  }

  lemma SwapNameInvolution(k: string)
    ensures SwapName(SwapName(k)) == k
  {
    if LEFT <= k {
      SwapNameOf(k[|LEFT|..]);
      assert LEFT + k[|LEFT|..] == k;
    } else if RIGHT <= k {
      SwapNameOf(k[|RIGHT|..]);
      assert RIGHT + k[|RIGHT|..] == k;
    }
  }

  function SwapFields(fields: Fields): (r: Fields)
    ensures forall k :: k in r <==> SwapName(k) in fields
    ensures forall k :: k in r ==> r[k] == fields[SwapName(k)]
  {
    var names := set k | k in fields :: SwapName(k);
    assert forall k :: k in names <==> SwapName(k) in fields by {
      forall k ensures k in names <==> SwapName(k) in fields {
        SwapNameInvolution(k);
        if k in names {
          var x :| x in fields && k == SwapName(x);
          SwapNameInvolution(x);
        }
      }
    }
    map k | k in names :: fields[SwapName(k)]
  }

  function SwapSides(v: Value): Value {
    if v.Object? then Object(SwapFields(v.fields)) else v
  }

  function SwapAll(vs: seq<Value>): seq<Value> {
    if vs == [] then [] else SwapAll(vs[..|vs| - 1]) + [SwapSides(vs[|vs| - 1])]
  }

  /** Membership in prefixed fields, by stripped name. */
  lemma PrefixedName(fields: Fields, prefix: string, k: string)
    ensures k in PrefixFields(fields, prefix) <==> prefix <= k && k[|prefix|..] in fields
    ensures k in PrefixFields(fields, prefix) ==> PrefixFields(fields, prefix)[k] == fields[k[|prefix|..]]
  {
    if prefix <= k {
      assert prefix + k[|prefix|..] == k;
    }
    if k in PrefixFields(fields, prefix) {
      var x :| x in fields && k == prefix + x;
      assert k[|prefix|..] == x;
    }
  }

  lemma SwapPrefixed(fields: Fields, k: string)
    ensures k in PrefixFields(fields, RIGHT) <==> SwapName(k) in PrefixFields(fields, LEFT)
    ensures k in PrefixFields(fields, LEFT) <==> SwapName(k) in PrefixFields(fields, RIGHT)
    ensures k in PrefixFields(fields, RIGHT) ==>
            PrefixFields(fields, RIGHT)[k] == PrefixFields(fields, LEFT)[SwapName(k)]
    ensures k in PrefixFields(fields, LEFT) ==>
            PrefixFields(fields, LEFT)[k] == PrefixFields(fields, RIGHT)[SwapName(k)]
  {
    var s := SwapName(k);
    SwapNameInvolution(k);
    PrefixedName(fields, LEFT, k);
    PrefixedName(fields, RIGHT, k);
    PrefixedName(fields, LEFT, s);
    PrefixedName(fields, RIGHT, s);
    if LEFT <= k {
      SwapNameOf(k[|LEFT|..]);
      assert s[|RIGHT|..] == k[|LEFT|..];
      assert s[0] == 'r' && k[0] == 'l';
    } else if RIGHT <= k {
      SwapNameOf(k[|RIGHT|..]);
      assert s[|LEFT|..] == k[|RIGHT|..];
      assert s[0] == 'l' && k[0] == 'r';
    }
  }

  lemma SwapPairAt(l: Fields, r: Fields, k: string)
    ensures SwapName(k) in CombineRecords(l, r) <==> k in CombineRecords(r, l)
    ensures k in CombineRecords(r, l) ==> CombineRecords(l, r)[SwapName(k)] == CombineRecords(r, l)[k]
  {
    SwapPrefixed(l, k);
    SwapPrefixed(r, k);
    PrefixedName(l, RIGHT, k);
    PrefixedName(r, LEFT, k);
    PrefixedName(l, LEFT, SwapName(k));
    PrefixedName(r, RIGHT, SwapName(k));
    OnePrefix(k);
    OnePrefix(SwapName(k));
  }

  lemma OnePrefix(k: string)
    ensures !(LEFT <= k) || !(RIGHT <= k)
  {
    assert LEFT[0] != RIGHT[0];
  }

  lemma SwapFieldsIs(m: Fields, n: Fields)
    requires forall k :: SwapName(k) in m <==> k in n
    requires forall k :: k in n ==> m[SwapName(k)] == n[k]
    ensures SwapFields(m) == n
  {
  }

  lemma SwapPair(l: Row, r: Row)
    ensures SwapSides(Pair(l, r)) == Pair(r, l)
  {
    var a, b := CombineRecords(l.fields, r.fields), CombineRecords(r.fields, l.fields);
    forall k ensures (SwapName(k) in a <==> k in b) && (k in b ==> a[SwapName(k)] == b[k]) {
      SwapPairAt(l.fields, r.fields, k);
    }
    SwapFieldsIs(a, b);
  }

  lemma SwapRightOnlyAt(r: Fields, k: string)
    ensures SwapName(k) in CombineRightOnly(r) <==> k in CombineLeftOnly(r)
    ensures k in CombineLeftOnly(r) ==> CombineRightOnly(r)[SwapName(k)] == CombineLeftOnly(r)[k]
  {
    SwapNameOf("missing");
    SwapNameInvolution(k);
    SwapPrefixed(r, k);
  }

  lemma SwapRightOnly(r: Row)
    ensures SwapSides(Object(CombineRightOnly(r.fields))) == Object(CombineLeftOnly(r.fields))
  {
    var a, b := CombineRightOnly(r.fields), CombineLeftOnly(r.fields);
    forall k ensures (SwapName(k) in a <==> k in b) && (k in b ==> a[SwapName(k)] == b[k]) {
      SwapRightOnlyAt(r.fields, k);
    }
    SwapFieldsIs(a, b);
  }

  lemma {:induction false} SwapAllConcat(a: seq<Value>, b: seq<Value>)
    ensures SwapAll(a + b) == SwapAll(a) + SwapAll(b)
  {
    if b == [] {
      assert a + b == a;
    } else {
      assert (a + b)[..|a + b| - 1] == a + b[..|b| - 1];
      SwapAllConcat(a, b[..|b| - 1]);
    }
  }

  lemma {:induction false} SwapLine(l: Row, right: seq<Row>)
    ensures SwapAll(Line(Paired(), l, right)) == Line(Flip(Paired()), l, right)
  {
    if right == [] {
    } else {
      var r := right[|right| - 1];
      SwapLine(l, right[..|right| - 1]);
      SwapPair(l, r);
      SwapAllConcat(Line(Paired(), l, right[..|right| - 1]), if l.key == r.key then [Pair(l, r)] else []);
    }
  }

  lemma {:induction false} SwapGrid(left: seq<Row>, right: seq<Row>)
    ensures SwapAll(Grid(Paired(), left, right)) == Grid(Flip(Paired()), left, right)
  {
    if left == [] {
    } else {
      SwapGrid(left[..|left| - 1], right);
      SwapLine(left[|left| - 1], right);
      SwapAllConcat(Grid(Paired(), left[..|left| - 1], right), Line(Paired(), left[|left| - 1], right));
    }
  }

  lemma {:induction false} SwapUnmatched(left: seq<Row>, right: seq<Row>)
    ensures SwapAll(UnmatchedRight(left, right)) == UnmatchedLeft(right, left)
  {
    if right == [] {
    } else {
      var r := right[|right| - 1];
      SwapUnmatched(left, right[..|right| - 1]);
      SwapRightOnly(r);
      SwapAllConcat(UnmatchedRight(left, right[..|right| - 1]),
                    if HasKey(left, r.key) then [] else [Object(CombineRightOnly(r.fields))]);
    }
  }

  lemma {:induction false} RightKeepsPairs(left: seq<Row>, right: seq<Row>)
    ensures NestedLeft(Right, left, right) == Grid(Paired(), left, right)
  {
    if left == [] {
    } else {
      var l := left[|left| - 1];
      RightKeepsPairs(left[..|left| - 1], right);
      if !HasKey(right, l.key) {
        LineWithoutPartner(Paired(), l, right);
      }
    }
  }

  /** A right join is the left join of the swapped sides with the field prefixes exchanged. */
  lemma RightMirrorsLeft(left: seq<Row>, right: seq<Row>)
    ensures multiset(SwapAll(NestedLoopJoin(Right, left, right))) == multiset(NestedLoopJoin(Left, right, left))
  {
    RightKeepsPairs(left, right);
    SwapAllConcat(NestedLeft(Right, left, right), UnmatchedRight(left, right));
    SwapGrid(left, right);
    SwapUnmatched(left, right);
    GridTransposes(Flip(Paired()), left, right);
    GridExt(Flip(Flip(Paired())), Paired(), right, left);
    NestedLeftSplits(Left, right, left);
    assert NestedLoopJoin(Left, right, left) == NestedLeft(Left, right, left);
  }

  lemma {:induction false} SwapAllLength(vs: seq<Value>)
    ensures |SwapAll(vs)| == |vs|
  {
    if vs == [] {
    } else {
      SwapAllLength(vs[..|vs| - 1]);
    }
  }

  /** The mirror law for the code itself holds exactly when no matched right row is repeated. */
  lemma CodeRightMirrorsLeftIff(left: seq<Row>, right: seq<Row>)
    ensures multiset(SwapAll(CodeJoin(Right, left, right))) == multiset(CodeJoin(Left, right, left)) <==>
            NoMatchedDuplicate(left, right)
  {
    CodeIsNestedLoopIff(Right, left, right);
    CodeIsNestedLoopIff(Left, right, left);
    RightMirrorsLeft(left, right);
    var code, spec, mirror := CodeJoin(Right, left, right), NestedLoopJoin(Right, left, right),
        CodeJoin(Left, right, left);
    SwapAllLength(code);
    SwapAllLength(spec);
    CodeRightLonger(left, right);
    LeftPartIsNested(Right, left, right);
    assert |multiset(SwapAll(code))| == |code| && |multiset(SwapAll(spec))| == |spec| && |multiset(mirror)| == |mirror|;
  }
}
