/** What the records of a join contain, told from the input records alone. */
module JoinContents {
  import opened Prelude
  import opened Dag
  import opened Values
  import opened Platform
  import opened Buckets
  import J = Join
  import P = PartitionedJoin
  import L = LocalJoin

  // ----- the vocabulary

  /** The text of a string or number under `key`. */
  function KeyText(rt: Runtime, key: string, rec: Value): Option<string> {
    if !rec.Object? || key !in rec.fields then None
    else
      match rec.fields[key]
      case Str(s) => Some(s)
      case Num(n) => Some(rt.numText(n))
      case _ => None
  }

  ghost predicate AllHaveKeys(rt: Runtime, key: string, recs: seq<Value>) {
    forall r :: r in recs ==> KeyText(rt, key, r).Some?
  }

  ghost predicate Meet(rt: Runtime, key: string, l: Value, r: Value) {
    KeyText(rt, key, l).Some? && KeyText(rt, key, l) == KeyText(rt, key, r)
  }

  /** No record of `others` has the key text of `rec`. */
  ghost predicate Lonely(rt: Runtime, key: string, rec: Value, others: seq<Value>) {
    forall o :: o in others ==> !Meet(rt, key, rec, o)
  }

  /** `rec` stands at two places. */
  ghost predicate Repeated<T>(recs: seq<T>, rec: T) {
    exists i, j :: 0 <= i < j < |recs| && recs[i] == recs[j] == rec
  }

  /** `name` is `prefix` followed by a field of `rec`, and `v` has that field's value under it. */
  ghost predicate Carries(v: Value, prefix: string, rec: Value)
    requires v.Object? && rec.Object?
  {
    forall f :: f in rec.fields ==> prefix + f in v.fields && v.fields[prefix + f] == rec.fields[f]
  }

  ghost predicate NamedAfter(name: string, prefix: string, rec: Value)
    requires rec.Object?
  {
    exists f :: f in rec.fields && name == prefix + f
  }

  /** The fields of both records under their prefixes, and nothing else. */
  ghost predicate IsPair(v: Value, l: Value, r: Value) {
    && v.Object? && l.Object? && r.Object? && Carries(v, "left_", l) && Carries(v, "right_", r)
    && forall name :: name in v.fields ==> NamedAfter(name, "left_", l) || NamedAfter(name, "right_", r)
  }

  /** The fields of one record under a prefix, a null marker, and nothing else. */
  ghost predicate IsOnly(v: Value, prefix: string, marker: string, rec: Value) {
    && v.Object? && rec.Object? && Carries(v, prefix, rec)
    && marker in v.fields && v.fields[marker] == Null
    && forall name :: name in v.fields ==> NamedAfter(name, prefix, rec) || name == marker
  }

  ghost predicate IsLeftOnly(v: Value, l: Value) {
    IsOnly(v, "left_", "right_missing", l)
  }

  ghost predicate IsRightOnly(v: Value, r: Value) {
    IsOnly(v, "right_", "left_missing", r)
  }

  /** Why a record is in the output. */
  ghost predicate FromPair(rt: Runtime, key: string, left: seq<Value>, right: seq<Value>, v: Value) {
    exists l, r :: l in left && r in right && Meet(rt, key, l, r) && IsPair(v, l, r)
  }

  ghost predicate FromLeft(rt: Runtime, key: string, left: seq<Value>, right: seq<Value>, v: Value) {
    exists l :: l in left && Lonely(rt, key, l, right) && IsLeftOnly(v, l)
  }

  /** The code also emits right records that have a partner but stand twice. */
  ghost predicate FromRight(rt: Runtime, key: string, left: seq<Value>, right: seq<Value>, v: Value) {
    exists r :: r in right && (Lonely(rt, key, r, left) || Repeated(right, r)) && IsRightOnly(v, r)
  }

  // ----- field names

  lemma NotRight(f: string, name: string)
    requires name == "left_" + f
    ensures !("right_" <= name)
  {
    assert name[0] == 'l';
  }

  lemma Prefixed(fields: Fields, prefix: string, name: string)
    ensures name in J.PrefixFields(fields, prefix) <==> NamedAfter(name, prefix, Object(fields))
    ensures forall f :: f in fields ==>
              prefix + f in J.PrefixFields(fields, prefix) && J.PrefixFields(fields, prefix)[prefix + f] == fields[f]
  {
    J.PrefixedName(fields, prefix, name);
    if prefix <= name {
      assert name == prefix + name[|prefix|..];
    }
    forall f | f in fields
      ensures prefix + f in J.PrefixFields(fields, prefix) && J.PrefixFields(fields, prefix)[prefix + f] == fields[f]
    {
      L.FieldOf(fields, prefix, f);
    }
  }

  lemma PairCarries(l: Fields, r: Fields)
    ensures IsPair(Object(J.CombineRecords(l, r)), Object(l), Object(r))
  {
    var v := J.CombineRecords(l, r);
    forall name | name in v ensures NamedAfter(name, "left_", Object(l)) || NamedAfter(name, "right_", Object(r)) {
      Prefixed(l, "left_", name);
      Prefixed(r, "right_", name);
    }
    Prefixed(l, "left_", "");
    Prefixed(r, "right_", "");
    forall f | f in l ensures "left_" + f in v && v["left_" + f] == l[f] {
      NotRight(f, "left_" + f);
      J.PrefixedName(r, "right_", "left_" + f);
    }
  }

  lemma LeftOnlyCarries(l: Fields)
    ensures IsLeftOnly(Object(J.CombineLeftOnly(l)), Object(l))
  {
    var v := J.CombineLeftOnly(l);
    assert J.RIGHT + "missing" == "right_missing";
    forall name | name in v ensures NamedAfter(name, "left_", Object(l)) || name == "right_missing" {
      Prefixed(l, "left_", name);
    }
    Prefixed(l, "left_", "");
    forall f | f in l ensures "left_" + f in v && v["left_" + f] == l[f] {
      assert ("left_" + f)[0] != "right_missing"[0];
    }
  }

  lemma RightOnlyCarries(r: Fields)
    ensures IsRightOnly(Object(J.CombineRightOnly(r)), Object(r))
  {
    var v := J.CombineRightOnly(r);
    assert J.LEFT + "missing" == "left_missing";
    forall name | name in v ensures NamedAfter(name, "right_", Object(r)) || name == "left_missing" {
      Prefixed(r, "right_", name);
    }
    Prefixed(r, "right_", "");
    forall f | f in r ensures "right_" + f in v && v["right_" + f] == r[f] {
      assert ("right_" + f)[0] != "left_missing"[0];
    }
  }

  /** The descriptions determine the record. */
  lemma OnePair(v: Value, w: Value, l: Value, r: Value)
    requires IsPair(v, l, r) && IsPair(w, l, r)
    ensures v == w
  {
    SameNames(v, w, l, r);
    forall name | name in v.fields ensures v.fields[name] == w.fields[name] {
      if NamedAfter(name, "left_", l) {
        var f :| f in l.fields && name == "left_" + f;
      } else {
        var f :| f in r.fields && name == "right_" + f;
      }
    }
    assert v.fields == w.fields;
  }

  lemma SameNames(v: Value, w: Value, l: Value, r: Value)
    requires IsPair(v, l, r) && IsPair(w, l, r)
    ensures v.fields.Keys == w.fields.Keys
  {
    forall name ensures name in v.fields <==> NamedAfter(name, "left_", l) || NamedAfter(name, "right_", r) {
      if NamedAfter(name, "left_", l) {
        var f :| f in l.fields && name == "left_" + f;
      }
      if NamedAfter(name, "right_", r) {
        var f :| f in r.fields && name == "right_" + f;
      }
    }
    forall name ensures name in w.fields <==> NamedAfter(name, "left_", l) || NamedAfter(name, "right_", r) {
      if NamedAfter(name, "left_", l) {
        var f :| f in l.fields && name == "left_" + f;
      }
      if NamedAfter(name, "right_", r) {
        var f :| f in r.fields && name == "right_" + f;
      }
    }
  }

  lemma OneOnly(v: Value, w: Value, prefix: string, marker: string, rec: Value)
    requires IsOnly(v, prefix, marker, rec) && IsOnly(w, prefix, marker, rec)
    ensures v == w
  {
    forall name ensures name in v.fields <==> name in w.fields {
      if NamedAfter(name, prefix, rec) {
        var f :| f in rec.fields && name == prefix + f;
      }
    }
    forall name | name in v.fields ensures v.fields[name] == w.fields[name] {
      if NamedAfter(name, prefix, rec) {
        var f :| f in rec.fields && name == prefix + f;
      }
    }
    assert v.fields == w.fields;
  }

  // ----- rows and records

  lemma RowOfRecord(rt: Runtime, key: string, rec: Value)
    ensures J.ToRow(rt, key, rec).Ok? <==> KeyText(rt, key, rec).Some?
    ensures J.ToRow(rt, key, rec).Ok? ==>
              rec.Object? && J.ToRow(rt, key, rec).value == J.Row(KeyText(rt, key, rec).value, rec.fields)
  {
  }

  lemma {:induction false} RowsAt(rt: Runtime, key: string, recs: seq<Value>)
    requires J.ToRows(rt, key, recs).Ok?
    ensures var rows := J.ToRows(rt, key, recs).value;
            |rows| == |recs| && forall i :: 0 <= i < |recs| ==> J.ToRow(rt, key, recs[i]) == Ok(rows[i])
  {
    if recs != [] {
      RowsAt(rt, key, recs[..|recs| - 1]);
    }
  }

  lemma RowsOkIffKeys(rt: Runtime, key: string, recs: seq<Value>)
    ensures J.ToRows(rt, key, recs).Ok? <==> AllHaveKeys(rt, key, recs)
  {
    P.RowsOkIff(rt, key, recs);
    forall r ensures J.ToRow(rt, key, r).Ok? <==> KeyText(rt, key, r).Some? {
      RowOfRecord(rt, key, r);
    }
  }

  /** A row of the list, with the record it comes from. */
  lemma RowIn(rt: Runtime, key: string, recs: seq<Value>, row: J.Row) returns (rec: Value)
    requires J.ToRows(rt, key, recs).Ok? && row in J.ToRows(rt, key, recs).value
    ensures rec in recs && rec == Object(row.fields) && KeyText(rt, key, rec) == Some(row.key)
  {
    RowsAt(rt, key, recs);
    var rows := J.ToRows(rt, key, recs).value;
    var i :| 0 <= i < |rows| && rows[i] == row;
    rec := recs[i];
    RowOfRecord(rt, key, rec);
  }

  lemma RecordIn(rt: Runtime, key: string, recs: seq<Value>, rec: Value) returns (row: J.Row)
    requires J.ToRows(rt, key, recs).Ok? && rec in recs
    ensures row in J.ToRows(rt, key, recs).value && rec == Object(row.fields) && KeyText(rt, key, rec) == Some(row.key)
  {
    RowsAt(rt, key, recs);
    var i :| 0 <= i < |recs| && recs[i] == rec;
    row := J.ToRows(rt, key, recs).value[i];
    RowOfRecord(rt, key, rec);
  }

  lemma LonelyIff(rt: Runtime, key: string, rec: Value, k: string, others: seq<Value>)
    requires J.ToRows(rt, key, others).Ok? && KeyText(rt, key, rec) == Some(k)
    ensures Lonely(rt, key, rec, others) <==> !J.HasKey(J.ToRows(rt, key, others).value, k)
  {
    var rows := J.ToRows(rt, key, others).value;
    if row :| row in rows && row.key == k {
      var o := RowIn(rt, key, others, row);
      assert Meet(rt, key, rec, o);
    }
    if o :| o in others && Meet(rt, key, rec, o) {
      var row := RecordIn(rt, key, others, o);
    }
  }

  // ----- what the row lists contain

  lemma {:induction false} InExpand<A, B>(s: seq<A>, f: A -> seq<B>, y: B)
    ensures y in Expand(s, f) <==> exists x :: x in s && y in f(x)
  {
    if s != [] {
      var init, last := s[..|s| - 1], s[|s| - 1];
      assert s == init + [last];
      InExpand(init, f, y);
    }
  }

  lemma {:induction false} InPairAll(l: J.Row, matches: seq<J.Row>, v: Value)
    ensures v in J.PairAll(l, matches) <==> exists r :: r in matches && v == J.Pair(l, r)
  {
    if matches != [] {
      var init, last := matches[..|matches| - 1], matches[|matches| - 1];
      assert matches == init + [last];
      InPairAll(l, init, v);
    }
  }

  /** What one left row contributes. */
  lemma InRowsFor(jt: JoinType, right: seq<J.Row>, l: J.Row, v: Value)
    ensures v in J.RowsFor(jt, right, l) <==>
              || (exists r :: r in right && r.key == l.key && v == J.Pair(l, r))
              || ((jt == Left || jt == Full) && !J.HasKey(right, l.key) && v == Object(J.CombineLeftOnly(l.fields)))
  {
    var m := J.Matches(right, l.key);
    J.HasKeyIffMatches(right, l.key);
    InPairAll(l, m, v);
    forall r ensures r in m <==> r in right && r.key == l.key {
      J.InMatches(right, l.key, r);
    }
  }

  lemma RepeatedAppend<T>(s: seq<T>, x: T, y: T)
    ensures Repeated(s + [x], y) <==> Repeated(s, y) || (y == x && x in s)
  {
    var t := s + [x];
    if Repeated(t, y) {
      var i, j :| 0 <= i < j < |t| && t[i] == t[j] == y;
      assert t[i] == s[i];
      if j < |s| {
        assert s[i] == s[j] == y;
      }
    }
    if Repeated(s, y) {
      var i, j :| 0 <= i < j < |s| && s[i] == s[j] == y;
      assert t[i] == t[j] == y;
    }
    if y == x && x in s {
      var i :| 0 <= i < |s| && s[i] == x;
      assert t[i] == t[|s|] == y;
    }
  }

  /** The right row is emitted as unmatched. */
  ghost predicate Emitted(left: seq<J.Row>, right: seq<J.Row>, r: J.Row) {
    r in right && (!J.HasKey(left, r.key) || Repeated(right, r))
  }

  lemma {:induction false} InCodeRight(left: seq<J.Row>, right: seq<J.Row>, v: Value)
    ensures v in J.CodeRight(left, right) <==>
            exists r :: Emitted(left, right, r) && v == Object(J.CombineRightOnly(r.fields))
  {
    if right != [] {
      var init, b := right[..|right| - 1], right[|right| - 1];
      assert right == init + [b];
      InCodeRight(left, init, v);
      P.CodeRightAppend(left, init, b);
      forall r
        ensures Emitted(left, right, r) <==> Emitted(left, init, r) || (r == b && (!J.HasKey(left, b.key) || b in init))
      {
        RepeatedAppend(init, b, r);
      }
    }
  }

  // ----- the output

  lemma {:induction false} RepeatedRows(rt: Runtime, key: string, recs: seq<Value>, rec: Value, row: J.Row)
    requires J.ToRows(rt, key, recs).Ok? && J.ToRow(rt, key, rec) == Ok(row)
    ensures Repeated(recs, rec) <==> Repeated(J.ToRows(rt, key, recs).value, row)
  {
    RowsAt(rt, key, recs);
    var rows := J.ToRows(rt, key, recs).value;
    RowOfRecord(rt, key, rec);
    forall i | 0 <= i < |recs| ensures recs[i] == rec <==> rows[i] == row {
      RowOfRecord(rt, key, recs[i]);
    }
    if Repeated(recs, rec) {
      var i, j :| 0 <= i < j < |recs| && recs[i] == recs[j] == rec;
      assert rows[i] == rows[j] == row;
    }
    if Repeated(rows, row) {
      var i, j :| 0 <= i < j < |rows| && rows[i] == rows[j] == row;
      assert recs[i] == recs[j] == rec;
    }
  }

  /** Pairs of rows are pairs of records. */
  lemma PairOfRows(rt: Runtime, key: string, left: seq<Value>, right: seq<Value>, v: Value)
    requires J.ToRows(rt, key, left).Ok? && J.ToRows(rt, key, right).Ok?
    ensures FromPair(rt, key, left, right, v) <==>
            exists l, r :: l in J.ToRows(rt, key, left).value && r in J.ToRows(rt, key, right).value &&
                           r.key == l.key && v == J.Pair(l, r)
  {
    var ls, rs := J.ToRows(rt, key, left).value, J.ToRows(rt, key, right).value;
    if l, r :| l in ls && r in rs && r.key == l.key && v == J.Pair(l, r) {
      var x := RowIn(rt, key, left, l);
      var y := RowIn(rt, key, right, r);
      PairCarries(l.fields, r.fields);
      assert Meet(rt, key, x, y) && IsPair(v, x, y);
    }
    if x, y :| x in left && y in right && Meet(rt, key, x, y) && IsPair(v, x, y) {
      var l := RecordIn(rt, key, left, x);
      var r := RecordIn(rt, key, right, y);
      PairCarries(l.fields, r.fields);
      OnePair(v, J.Pair(l, r), x, y);
      assert r.key == l.key && v == J.Pair(l, r);
    }
  }

  lemma LeftOfRows(rt: Runtime, key: string, left: seq<Value>, right: seq<Value>, v: Value)
    requires J.ToRows(rt, key, left).Ok? && J.ToRows(rt, key, right).Ok?
    ensures FromLeft(rt, key, left, right, v) <==>
            exists l :: l in J.ToRows(rt, key, left).value && !J.HasKey(J.ToRows(rt, key, right).value, l.key) &&
                        v == Object(J.CombineLeftOnly(l.fields))
  {
    var ls, rs := J.ToRows(rt, key, left).value, J.ToRows(rt, key, right).value;
    if l :| l in ls && !J.HasKey(rs, l.key) && v == Object(J.CombineLeftOnly(l.fields)) {
      var x := RowIn(rt, key, left, l);
      LonelyIff(rt, key, x, l.key, right);
      LeftOnlyCarries(l.fields);
      assert Lonely(rt, key, x, right) && IsLeftOnly(v, x);
    }
    if x :| x in left && Lonely(rt, key, x, right) && IsLeftOnly(v, x) {
      var l := RecordIn(rt, key, left, x);
      LonelyIff(rt, key, x, l.key, right);
      LeftOnlyCarries(l.fields);
      OneOnly(v, Object(J.CombineLeftOnly(l.fields)), "left_", "right_missing", x);
      assert !J.HasKey(rs, l.key) && v == Object(J.CombineLeftOnly(l.fields));
    }
  }

  lemma RightOfRows(rt: Runtime, key: string, left: seq<Value>, right: seq<Value>, v: Value)
    requires J.ToRows(rt, key, left).Ok? && J.ToRows(rt, key, right).Ok?
    ensures FromRight(rt, key, left, right, v) <==>
            v in J.CodeRight(J.ToRows(rt, key, left).value, J.ToRows(rt, key, right).value)
  {
    var ls, rs := J.ToRows(rt, key, left).value, J.ToRows(rt, key, right).value;
    InCodeRight(ls, rs, v);
    if r :| Emitted(ls, rs, r) && v == Object(J.CombineRightOnly(r.fields)) {
      var y := RowIn(rt, key, right, r);
      LonelyIff(rt, key, y, r.key, left);
      RowOfRecord(rt, key, y);
      RepeatedRows(rt, key, right, y, r);
      RightOnlyCarries(r.fields);
      assert (Lonely(rt, key, y, left) || Repeated(right, y)) && IsRightOnly(v, y);
    }
    if y :| y in right && (Lonely(rt, key, y, left) || Repeated(right, y)) && IsRightOnly(v, y) {
      var r := RecordIn(rt, key, right, y);
      LonelyIff(rt, key, y, r.key, left);
      RowOfRecord(rt, key, y);
      RepeatedRows(rt, key, right, y, r);
      RightOnlyCarries(r.fields);
      OneOnly(v, Object(J.CombineRightOnly(r.fields)), "right_", "left_missing", y);
      assert Emitted(ls, rs, r);
    }
  }

  lemma InLeftPart(jt: JoinType, left: seq<J.Row>, right: seq<J.Row>, v: Value)
    ensures v in J.LeftPart(jt, left, right) <==>
              || (exists l, r :: l in left && r in right && r.key == l.key && v == J.Pair(l, r))
              || ((jt == Left || jt == Full) &&
                  exists l :: l in left && !J.HasKey(right, l.key) && v == Object(J.CombineLeftOnly(l.fields)))
  {
    InExpand(left, J.RowsOf(jt, right), v);
    forall l
      ensures v in J.RowsOf(jt, right)(l) <==>
                || (exists r :: r in right && r.key == l.key && v == J.Pair(l, r))
                || ((jt == Left || jt == Full) && !J.HasKey(right, l.key) && v == Object(J.CombineLeftOnly(l.fields)))
    {
      InRowsFor(jt, right, l, v);
    }
  }

  /** A join succeeds exactly on two partitions whose records all have a string or number under the key. */
  lemma JoinSucceedsIff(rt: Runtime, key: string, jt: JoinType, parts: seq<Partition>)
    ensures J.JoinOutcome(rt, key, jt, parts).Ok? <==>
            |parts| == 2 && AllHaveKeys(rt, key, parts[0].records) && AllHaveKeys(rt, key, parts[1].records)
  {
    if |parts| == 2 {
      RowsOkIffKeys(rt, key, parts[0].records);
      RowsOkIffKeys(rt, key, parts[1].records);
    }
  }

  /**
   A record is in the output of a join exactly when it is the pair of a left and a right record with equal key text, in
   a left or full join the left half of a lonely left record, or in a right or full join the right half of a right
   record that is lonely or stands twice.
   */
  lemma JoinContentsIff(rt: Runtime, key: string, jt: JoinType, left: Partition, right: Partition, v: Value)
    requires J.JoinOutcome(rt, key, jt, [left, right]).Ok?
    ensures var out := J.JoinOutcome(rt, key, jt, [left, right]).value;
            && |out| == 1 && out[0].id == (if left.id <= right.id then left.id else right.id)
            && (v in out[0].records <==>
                || FromPair(rt, key, left.records, right.records, v)
                || ((jt == Left || jt == Full) && FromLeft(rt, key, left.records, right.records, v))
                || ((jt == Right || jt == Full) && FromRight(rt, key, left.records, right.records, v)))
  {
    var ls, rs := J.ToRows(rt, key, left.records).value, J.ToRows(rt, key, right.records).value;
    InLeftPart(jt, ls, rs, v);
    PairOfRows(rt, key, left.records, right.records, v);
    LeftOfRows(rt, key, left.records, right.records, v);
    RightOfRows(rt, key, left.records, right.records, v);
  }
}
