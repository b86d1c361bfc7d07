/** Joining inside each task, without moving rows between tasks: when it equals one big join. */
module LocalJoin {
  import opened Prelude
  import opened Dag
  import opened Values
  import opened Buckets
  import opened Join
  import P = PartitionedJoin

  /** A row and the task that has it. */
  datatype Tagged = Tagged(row: Row, part: nat)

  function PartOf(): Tagged -> nat {
    (t: Tagged) => t.part
  }

  function KeyIs(k: string): Tagged -> bool {
    (t: Tagged) => t.row.key == k
  }

  function RowsIn(ts: seq<Tagged>): (r: seq<Row>)
    ensures |r| == |ts| && forall i :: 0 <= i < |r| ==> r[i] == ts[i].row
  {
    seq(|ts|, i requires 0 <= i < |ts| => ts[i].row)
  }

  /** The rows of task `p`. */
  function Own(ts: seq<Tagged>, p: nat): seq<Row> {
    RowsIn(Bucket(ts, PartOf(), p))
  }

  /** Rows with equal keys on the two sides are in the same task. */
  ghost predicate Together(left: seq<Tagged>, right: seq<Tagged>) {
    forall a, b :: a in left && b in right && a.row.key == b.row.key ==> a.part == b.part
  }

  lemma RowsInAppend(ts: seq<Tagged>, t: Tagged)
    ensures RowsIn(ts + [t]) == RowsIn(ts) + [t.row]
  {
  }

  lemma {:induction false} MatchesTagged(ts: seq<Tagged>, k: string)
    ensures Matches(RowsIn(ts), k) == RowsIn(Filter(ts, KeyIs(k)))
  {
    if ts != [] {
      var init, t := ts[..|ts| - 1], ts[|ts| - 1];
      assert ts == init + [t];
      MatchesTagged(init, k);
      RowsInAppend(init, t);
      MatchesAppend(RowsIn(init), t.row, k);
      if t.row.key == k {
        RowsInAppend(Filter(init, KeyIs(k)), t);
      }
    }
  }

  lemma HasKeyTagged(ts: seq<Tagged>, k: string)
    ensures HasKey(RowsIn(ts), k) <==> exists t :: t in ts && t.row.key == k
  {
    if HasKey(RowsIn(ts), k) {
      var r :| r in RowsIn(ts) && r.key == k;
      var i :| 0 <= i < |ts| && RowsIn(ts)[i] == r;
      assert ts[i] in ts;
    }
    if t :| t in ts && t.row.key == k {
      var i :| 0 <= i < |ts| && ts[i] == t;
      assert RowsIn(ts)[i] == t.row;
    }
  }

  // ----- rows that are together join alike

  /** A left row finds all its matches in its own task. */
  lemma OwnMatches(left: seq<Tagged>, right: seq<Tagged>, a: Tagged)
    requires Together(left, right) && a in left
    ensures Matches(Own(right, a.part), a.row.key) == Matches(RowsIn(right), a.row.key)
  {
    MatchesTagged(right, a.row.key);
    MatchesTagged(Bucket(right, PartOf(), a.part), a.row.key);
    SelectInBucket(right, PartOf(), a.part, KeyIs(a.row.key));
  }

  function TaggedRows(jt: JoinType, right: seq<Row>): Tagged -> seq<Value> {
    (t: Tagged) => RowsFor(jt, right, t.row)
  }

  lemma {:induction false} ExpandRows(jt: JoinType, ts: seq<Tagged>, right: seq<Row>)
    ensures Expand(RowsIn(ts), RowsOf(jt, right)) == Expand(ts, TaggedRows(jt, right))
  {
    if ts != [] {
      var init, t := ts[..|ts| - 1], ts[|ts| - 1];
      ExpandRows(jt, init, right);
      assert ts == init + [t];
      RowsInAppend(init, t);
      assert RowsIn(ts)[..|ts| - 1] == RowsIn(init);
    }
  }

  lemma OwnLeft(jt: JoinType, left: seq<Tagged>, right: seq<Tagged>, p: nat)
    requires Together(left, right)
    ensures LeftPart(jt, Own(left, p), Own(right, p)) ==
            Expand(Bucket(left, PartOf(), p), TaggedRows(jt, RowsIn(right)))
  {
    var mine := Bucket(left, PartOf(), p);
    ExpandRows(jt, mine, Own(right, p));
    forall t | t in mine ensures TaggedRows(jt, Own(right, p))(t) == TaggedRows(jt, RowsIn(right))(t) {
      InBucket(left, PartOf(), p, t);
      OwnMatches(left, right, t);
    }
    ExpandExt(mine, TaggedRows(jt, Own(right, p)), TaggedRows(jt, RowsIn(right)));
  }

  /** The rows each task emits as unmatched on the right. */
  ghost function RightPerTask(left: seq<Tagged>, right: seq<Tagged>): nat -> multiset<Value> {
    (p: nat) => multiset(CodeRight(Own(left, p), Own(right, p)))
  }

  /** A right row has a partner, or an equal predecessor with a partner, in its task exactly when it has one at all. */
  lemma OwnTail(left: seq<Tagged>, right: seq<Tagged>, b: Tagged)
    requires Together(left, right + [b])
    ensures HasKey(Own(left, b.part), b.row.key) <==> HasKey(RowsIn(left), b.row.key)
    ensures HasKey(RowsIn(left), b.row.key) ==> (b.row in Own(right, b.part) <==> b.row in RowsIn(right))
  {
    var p, k := b.part, b.row.key;
    assert b in right + [b];
    HasKeyTagged(left, k);
    HasKeyTagged(Bucket(left, PartOf(), p), k);
    forall t ensures t in Bucket(left, PartOf(), p) <==> t in left && t.part == p {
      InBucket(left, PartOf(), p, t);
    }
    if a :| a in left && a.row.key == k {
      RowInOwn(right, b.row, p);
      forall t | t in right && t.row == b.row ensures t.part == p {
        assert t in right + [b];
      }
    }
  }

  lemma RowInOwn(ts: seq<Tagged>, row: Row, p: nat)
    ensures row in RowsIn(ts) <==> exists t :: t in ts && t.row == row
    ensures row in Own(ts, p) <==> exists t :: t in ts && t.row == row && t.part == p
  {
    RowInList(ts, row);
    RowInList(Bucket(ts, PartOf(), p), row);
    forall t ensures t in Bucket(ts, PartOf(), p) <==> t in ts && t.part == p {
      InBucket(ts, PartOf(), p, t);
    }
  }

  lemma RowInList(ts: seq<Tagged>, row: Row)
    ensures row in RowsIn(ts) <==> exists t :: t in ts && t.row == row
  {
    if row in RowsIn(ts) {
      var i :| 0 <= i < |ts| && RowsIn(ts)[i] == row;
      assert ts[i] in ts;
    }
    if t :| t in ts && t.row == row {
      var i :| 0 <= i < |ts| && ts[i] == t;
      assert RowsIn(ts)[i] == row;
    }
  }

  lemma OwnAppend(ts: seq<Tagged>, t: Tagged, p: nat)
    ensures Own(ts + [t], p) == if t.part == p then Own(ts, p) + [t.row] else Own(ts, p)
  {
    BucketAppend(ts, t, PartOf(), p);
    if t.part == p {
      RowsInAppend(Bucket(ts, PartOf(), p), t);
    } else {
      assert Bucket(ts, PartOf(), p) + [] == Bucket(ts, PartOf(), p);
    }
  }

  /** What one more right row adds to the rows emitted as unmatched. */
  function TailOf(left: seq<Row>, right: seq<Row>, r: Row): seq<Value> {
    if HasKey(left, r.key) && r !in right then [] else [Object(CombineRightOnly(r.fields))]
  }

  lemma OwnRightAppend(left: seq<Tagged>, right: seq<Tagged>, b: Tagged, p: nat)
    requires Together(left, right + [b])
    ensures RightPerTask(left, right + [b])(p) ==
            if p == b.part then RightPerTask(left, right)(p) + multiset(TailOf(RowsIn(left), RowsIn(right), b.row))
            else RightPerTask(left, right)(p)
  {
    OwnAppend(right, b, p);
    OwnTail(left, right, b);
    P.CodeRightAppend(Own(left, p), Own(right, p), b.row);
  }

  lemma {:induction false} RightTogether(left: seq<Tagged>, right: seq<Tagged>, n: nat)
    requires Together(left, right) && forall b :: b in right ==> b.part < n
    ensures SumOver(n, RightPerTask(left, right)) == multiset(CodeRight(RowsIn(left), RowsIn(right)))
  {
    var g := RightPerTask(left, right);
    if right == [] {
      SumZero(n, g);
    } else {
      var init, b := right[..|right| - 1], right[|right| - 1];
      assert right == init + [b] && b in right;
      RightTogether(left, init, n);
      var g0 := RightPerTask(left, init);
      var extra := multiset(TailOf(RowsIn(left), RowsIn(init), b.row));
      RowsInAppend(init, b);
      P.CodeRightAppend(RowsIn(left), RowsIn(init), b.row);
      forall p: nat | p < n ensures g(p) == if p == b.part then g0(p) + extra else g0(p) {
        OwnRightAppend(left, init, b, p);
      }
      SumUpdate(n, g0, g, b.part, extra);
    }
  }

  /** What each task's join outputs. */
  function JoinOf(jt: JoinType, left: seq<Tagged>, right: seq<Tagged>): nat -> seq<Value> {
    (p: nat) => CodeJoin(jt, Own(left, p), Own(right, p))
  }

  ghost function Bags<T>(f: nat -> seq<T>): nat -> multiset<T> {
    (p: nat) => multiset(f(p))
  }

  lemma OwnJoin(jt: JoinType, left: seq<Tagged>, right: seq<Tagged>, p: nat)
    requires Together(left, right)
    ensures var byLeft := PerBucket(left, PartOf(), TaggedRows(jt, RowsIn(right)))(p);
            Bags(JoinOf(jt, left, right))(p) == if KeepsRight(jt) then byLeft + RightPerTask(left, right)(p) else byLeft
  {
    OwnLeft(jt, left, right, p);
  }

  /** If equal keys are together, the tasks output the rows of the whole join. */
  lemma TogetherJoins(jt: JoinType, left: seq<Tagged>, right: seq<Tagged>, n: nat)
    requires Together(left, right) && (forall a :: a in left ==> a.part < n) && forall b :: b in right ==> b.part < n
    ensures SumOver(n, Bags(JoinOf(jt, left, right))) == multiset(CodeJoin(jt, RowsIn(left), RowsIn(right)))
  {
    var h := TaggedRows(jt, RowsIn(right));
    var byLeft, byRight := PerBucket(left, PartOf(), h), RightPerTask(left, right);
    ExpandByBucket(left, PartOf(), n, h);
    ExpandRows(jt, left, RowsIn(right));
    RightTogether(left, right, n);
    forall p: nat | p < n
      ensures Bags(JoinOf(jt, left, right))(p) == if KeepsRight(jt) then byLeft(p) + byRight(p) else byLeft(p)
    {
      OwnJoin(jt, left, right, p);
    }
    if KeepsRight(jt) {
      SumAdd(n, byLeft, byRight, Bags(JoinOf(jt, left, right)));
    } else {
      SumExt(n, Bags(JoinOf(jt, left, right)), byLeft);
    }
  }

  // ----- pairs can be told from lonely rows

  predicate KeyText(v: Value) {
    v.Str? || v.Num?
  }

  /** A row with a key on both sides. */
  predicate IsPair(key: string, v: Value) {
    && v.Object?
    && LEFT + key in v.fields && KeyText(v.fields[LEFT + key])
    && RIGHT + key in v.fields && KeyText(v.fields[RIGHT + key])
  }

  function PairTest(key: string): Value -> bool {
    (v: Value) => IsPair(key, v)
  }

  /** The row comes from a record with a key. */
  predicate HasKeyField(key: string, row: Row) {
    key in row.fields && KeyText(row.fields[key])
  }

  lemma FieldOf(fields: Fields, prefix: string, key: string)
    ensures prefix + key in PrefixFields(fields, prefix) <==> key in fields
    ensures key in fields ==> PrefixFields(fields, prefix)[prefix + key] == fields[key]
  {
    PrefixedName(fields, prefix, prefix + key);
    assert (prefix + key)[|prefix|..] == key;
  }

  lemma PairIsPair(key: string, l: Row, r: Row)
    requires HasKeyField(key, l) && HasKeyField(key, r)
    ensures PairTest(key)(Pair(l, r))
  {
    FieldOf(l.fields, LEFT, key);
    FieldOf(r.fields, RIGHT, key);
    NotPrefixed(r.fields, RIGHT, LEFT, key);
  }

  /** Fields prefixed on one side have no names of the other. */
  lemma NotPrefixed(fields: Fields, prefix: string, other: string, key: string)
    requires (prefix == LEFT && other == RIGHT) || (prefix == RIGHT && other == LEFT)
    ensures other + key !in PrefixFields(fields, prefix)
  {
    PrefixedName(fields, prefix, other + key);
    assert prefix[0] != (other + key)[0];
  }

  lemma LeftOnlyIsNoPair(key: string, fields: Fields)
    ensures !IsPair(key, Object(CombineLeftOnly(fields)))
  {
    NotPrefixed(fields, LEFT, RIGHT, key);
    var v, name := CombineLeftOnly(fields), RIGHT + key;
    assert name in v ==> name == RIGHT + "missing" && v[name] == Null;
  }

  lemma RightOnlyIsNoPair(key: string, fields: Fields)
    ensures !IsPair(key, Object(CombineRightOnly(fields)))
  {
    NotPrefixed(fields, RIGHT, LEFT, key);
    var v, name := CombineRightOnly(fields), LEFT + key;
    assert name in v ==> name == LEFT + "missing" && v[name] == Null;
  }

  function MatchesOf(right: seq<Row>): Row -> seq<Row> {
    (l: Row) => Matches(right, l.key)
  }

  lemma {:induction false} PairsAreKept(key: string, l: Row, matches: seq<Row>)
    requires HasKeyField(key, l) && forall r :: r in matches ==> HasKeyField(key, r)
    ensures Filter(PairAll(l, matches), PairTest(key)) == PairAll(l, matches) && |PairAll(l, matches)| == |matches|
  {
    if matches != [] {
      var init, r := matches[..|matches| - 1], matches[|matches| - 1];
      assert matches == init + [r];
      PairsAreKept(key, l, init);
      PairIsPair(key, l, r);
      assert PairAll(l, matches)[..|init|] == PairAll(l, init);
    }
  }

  lemma PairsOfRow(key: string, jt: JoinType, l: Row, right: seq<Row>)
    requires HasKeyField(key, l) && forall r :: r in right ==> HasKeyField(key, r)
    ensures |Filter(RowsFor(jt, right, l), PairTest(key))| == |Matches(right, l.key)|
  {
    var m := Matches(right, l.key);
    if m != [] {
      forall r | r in m ensures HasKeyField(key, r) {
        InMatches(right, l.key, r);
      }
      PairsAreKept(key, l, m);
    } else if KeepsLeft(jt) {
      var only := Object(CombineLeftOnly(l.fields));
      LeftOnlyIsNoPair(key, l.fields);
      assert [only][..0] == [] && Filter([only][..0], PairTest(key)) == [];
    }
  }

  lemma {:induction false} PairsOfLeft(key: string, jt: JoinType, left: seq<Row>, right: seq<Row>)
    requires (forall l :: l in left ==> HasKeyField(key, l)) && forall r :: r in right ==> HasKeyField(key, r)
    ensures |Filter(LeftPart(jt, left, right), PairTest(key))| == |Expand(left, MatchesOf(right))|
  {
    if left != [] {
      var init, l := left[..|left| - 1], left[|left| - 1];
      assert left == init + [l] && l in left;
      PairsOfLeft(key, jt, init, right);
      PairsOfRow(key, jt, l, right);
      FilterConcat(LeftPart(jt, init, right), RowsFor(jt, right, l), PairTest(key));
    }
  }

  lemma FilterOut<T>(s: seq<T>, x: T, q: T -> bool)
    requires !q(x)
    ensures Filter(s + [x], q) == Filter(s, q)
  {
    assert (s + [x])[..|s|] == s;
  }

  lemma {:induction false} NoPairsOnRight(key: string, left: seq<Row>, right: seq<Row>)
    ensures Filter(CodeRight(left, right), PairTest(key)) == []
  {
    if right != [] {
      var init, r := right[..|right| - 1], right[|right| - 1];
      NoPairsOnRight(key, left, init);
      RightOnlyIsNoPair(key, r.fields);
      var before, only := CodeRight(left, init), Object(CombineRightOnly(r.fields));
      FilterOut(before, only, PairTest(key));
      assert CodeRight(left, right) == before || CodeRight(left, right) == before + [only];
    }
  }

  /** Among the rows of a join, the pairs are as many as the matches. */
  lemma PairsOfJoin(key: string, jt: JoinType, left: seq<Row>, right: seq<Row>)
    requires (forall l :: l in left ==> HasKeyField(key, l)) && forall r :: r in right ==> HasKeyField(key, r)
    ensures |Filter(CodeJoin(jt, left, right), PairTest(key))| == |Expand(left, MatchesOf(right))|
  {
    PairsOfLeft(key, jt, left, right);
    if KeepsRight(jt) {
      NoPairsOnRight(key, left, right);
      FilterConcat(LeftPart(jt, left, right), CodeRight(left, right), PairTest(key));
    } else {
      assert LeftPart(jt, left, right) + [] == LeftPart(jt, left, right);
    }
  }

  // ----- if the tasks output the rows of the whole join, equal keys are together

  ghost function Pairs(f: nat -> seq<Value>, q: Value -> bool): nat -> multiset<Value> {
    (p: nat) => multiset(Filter(f(p), q))
  }

  lemma {:induction false} FilteredCount<T>(s: seq<T>, q: T -> bool, x: T)
    ensures multiset(Filter(s, q))[x] == if q(x) then multiset(s)[x] else 0
  {
    if s != [] {
      FilteredCount(s[..|s| - 1], q, x);
      assert s == s[..|s| - 1] + [s[|s| - 1]];
    }
  }

  lemma {:induction false} PairsSum(n: nat, f: nat -> seq<Value>, q: Value -> bool, x: Value)
    ensures SumOver(n, Pairs(f, q))[x] == if q(x) then SumOver(n, Bags(f))[x] else 0
  {
    if n > 0 {
      PairsSum(n - 1, f, q, x);
      FilteredCount(f(n - 1), q, x);
    }
  }

  lemma PairsAgree(n: nat, f: nat -> seq<Value>, whole: seq<Value>, q: Value -> bool)
    requires SumOver(n, Bags(f)) == multiset(whole)
    ensures |SumOver(n, Pairs(f, q))| == |Filter(whole, q)|
  {
    forall x ensures SumOver(n, Pairs(f, q))[x] == multiset(Filter(whole, q))[x] {
      PairsSum(n, f, q, x);
      FilteredCount(whole, q, x);
    }
    assert SumOver(n, Pairs(f, q)) == multiset(Filter(whole, q));
  }

  lemma {:induction false} SameSizes<A, B>(n: nat, g: nat -> multiset<A>, h: nat -> multiset<B>)
    requires forall p :: 0 <= p < n ==> |g(p)| == |h(p)|
    ensures |SumOver(n, g)| == |SumOver(n, h)|
  {
    if n > 0 {
      SameSizes(n - 1, g, h);
    }
  }

  /** The matches of a left row among the right rows of its own task. */
  function OwnMatch(right: seq<Tagged>): Tagged -> seq<Row> {
    (a: Tagged) => Matches(Own(right, a.part), a.row.key)
  }

  function AnyMatch(right: seq<Tagged>): Tagged -> seq<Row> {
    (a: Tagged) => Matches(RowsIn(right), a.row.key)
  }

  lemma {:induction false} ExpandMatches(ts: seq<Tagged>, right: seq<Row>, h: Tagged -> seq<Row>)
    requires forall t :: t in ts ==> h(t) == Matches(right, t.row.key)
    ensures Expand(RowsIn(ts), MatchesOf(right)) == Expand(ts, h)
  {
    if ts != [] {
      var init, t := ts[..|ts| - 1], ts[|ts| - 1];
      assert ts == init + [t];
      ExpandMatches(init, right, h);
      RowsInAppend(init, t);
      assert RowsIn(ts)[..|ts| - 1] == RowsIn(init);
    }
  }

  lemma KeyFields(key: string, ts: seq<Tagged>, p: nat)
    requires forall t :: t in ts ==> HasKeyField(key, t.row)
    ensures forall r :: r in RowsIn(ts) ==> HasKeyField(key, r)
    ensures forall r :: r in Own(ts, p) ==> HasKeyField(key, r)
  {
    forall r | r in RowsIn(ts) || r in Own(ts, p) ensures HasKeyField(key, r) {
      RowInOwn(ts, r, p);
    }
  }

  /** The pairs of one task are the matches of its left rows among its right rows. */
  lemma PairsOfTask(key: string, jt: JoinType, left: seq<Tagged>, right: seq<Tagged>, p: nat)
    requires (forall a :: a in left ==> HasKeyField(key, a.row)) && forall b :: b in right ==> HasKeyField(key, b.row)
    ensures |Pairs(JoinOf(jt, left, right), PairTest(key))(p)| == |PerBucket(left, PartOf(), OwnMatch(right))(p)|
  {
    var mine := Bucket(left, PartOf(), p);
    KeyFields(key, left, p);
    KeyFields(key, right, p);
    PairsOfJoin(key, jt, Own(left, p), Own(right, p));
    forall t | t in mine ensures OwnMatch(right)(t) == Matches(Own(right, p), t.row.key) {
      InBucket(left, PartOf(), p, t);
    }
    ExpandMatches(mine, Own(right, p), OwnMatch(right));
  }

  /** As many pairs within tasks as in the whole join. */
  lemma SameNumberOfPairs(key: string, jt: JoinType, left: seq<Tagged>, right: seq<Tagged>, n: nat)
    requires forall a :: a in left ==> a.part < n && HasKeyField(key, a.row)
    requires forall b :: b in right ==> HasKeyField(key, b.row)
    requires SumOver(n, Bags(JoinOf(jt, left, right))) == multiset(CodeJoin(jt, RowsIn(left), RowsIn(right)))
    ensures |Expand(left, OwnMatch(right))| == |Expand(left, AnyMatch(right))|
  {
    var f, q := JoinOf(jt, left, right), PairTest(key);
    PairsAgree(n, f, CodeJoin(jt, RowsIn(left), RowsIn(right)), q);
    KeyFields(key, left, 0);
    KeyFields(key, right, 0);
    PairsOfJoin(key, jt, RowsIn(left), RowsIn(right));
    ExpandMatches(left, RowsIn(right), AnyMatch(right));
    forall p: nat | p < n ensures |Pairs(f, q)(p)| == |PerBucket(left, PartOf(), OwnMatch(right))(p)| {
      PairsOfTask(key, jt, left, right, p);
    }
    SameSizes(n, Pairs(f, q), PerBucket(left, PartOf(), OwnMatch(right)));
    ExpandByBucket(left, PartOf(), n, OwnMatch(right));
  }

  lemma {:induction false} TermwiseEqual<A, B>(s: seq<A>, f: A -> seq<B>, g: A -> seq<B>)
    requires forall x :: x in s ==> |f(x)| <= |g(x)|
    ensures |Expand(s, f)| <= |Expand(s, g)|
    ensures |Expand(s, f)| == |Expand(s, g)| ==> forall x :: x in s ==> |f(x)| == |g(x)|
  {
    if s != [] {
      var init, x := s[..|s| - 1], s[|s| - 1];
      assert s == init + [x] && x in s;
      TermwiseEqual(init, f, g);
    }
  }

  lemma {:induction false} BucketFilter(ts: seq<Tagged>, p: nat, q: Tagged -> bool)
    ensures |Filter(Bucket(ts, PartOf(), p), q)| <= |Filter(ts, q)|
    ensures |Filter(Bucket(ts, PartOf(), p), q)| == |Filter(ts, q)| ==> forall t :: t in ts && q(t) ==> t.part == p
  {
    if ts != [] {
      var init, t := ts[..|ts| - 1], ts[|ts| - 1];
      assert ts == init + [t];
      BucketFilter(init, p, q);
      BucketAppend(init, t, PartOf(), p);
      FilterConcat(Bucket(init, PartOf(), p), if t.part == p then [t] else [], q);
    }
  }

  lemma OwnMatchesOnly(right: seq<Tagged>, a: Tagged)
    ensures |OwnMatch(right)(a)| <= |AnyMatch(right)(a)|
    ensures |OwnMatch(right)(a)| == |AnyMatch(right)(a)| ==>
              forall b :: b in right && b.row.key == a.row.key ==> b.part == a.part
  {
    MatchesTagged(right, a.row.key);
    MatchesTagged(Bucket(right, PartOf(), a.part), a.row.key);
    BucketFilter(right, a.part, KeyIs(a.row.key));
  }

  lemma EqualMeansTogether(key: string, jt: JoinType, left: seq<Tagged>, right: seq<Tagged>, n: nat)
    requires forall a :: a in left ==> a.part < n && HasKeyField(key, a.row)
    requires forall b :: b in right ==> HasKeyField(key, b.row)
    requires SumOver(n, Bags(JoinOf(jt, left, right))) == multiset(CodeJoin(jt, RowsIn(left), RowsIn(right)))
    ensures Together(left, right)
  {
    SameNumberOfPairs(key, jt, left, right, n);
    forall a | a in left ensures |OwnMatch(right)(a)| <= |AnyMatch(right)(a)| {
      OwnMatchesOnly(right, a);
    }
    TermwiseEqual(left, OwnMatch(right), AnyMatch(right));
    forall a, b | a in left && b in right && a.row.key == b.row.key ensures a.part == b.part {
      OwnMatchesOnly(right, a);
    }
  }

  /**
   Joining task by task outputs the rows of the whole join exactly when rows with equal keys are in the same task:
   one condition for all four join types.
   */
  lemma LocalJoinIff(key: string, jt: JoinType, left: seq<Tagged>, right: seq<Tagged>, n: nat)
    requires forall a :: a in left ==> a.part < n && HasKeyField(key, a.row)
    requires forall b :: b in right ==> b.part < n && HasKeyField(key, b.row)
    ensures SumOver(n, Bags(JoinOf(jt, left, right))) == multiset(CodeJoin(jt, RowsIn(left), RowsIn(right))) <==>
            Together(left, right)
  {
    if SumOver(n, Bags(JoinOf(jt, left, right))) == multiset(CodeJoin(jt, RowsIn(left), RowsIn(right))) {
      EqualMeansTogether(key, jt, left, right, n);
    }
    if Together(left, right) {
      TogetherJoins(jt, left, right, n);
    }
  }
}
