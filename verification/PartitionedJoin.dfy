/** Shuffling both sides by the join key and joining bucket by bucket equals joining the whole inputs. */
module PartitionedJoin {
  import opened Prelude
  import opened Dag
  import opened Values
  import opened Platform
  import opened Buckets
  import opened Shuffle
  import opened Join

  function KeyBucket(rt: Runtime, total: nat, k: string): nat
    requires total > 0
  {
    rt.hash(Text(k)) % total
  }

  function RowBucket(rt: Runtime, total: nat): Row -> nat
    requires total > 0
  {
    (row: Row) => KeyBucket(rt, total, row.key)
  }

  /** The shuffle and the join read the same key text. */
  lemma BucketsAgree(rt: Runtime, key: string, total: nat, rec: Value)
    requires total > 0 && ToRow(rt, key, rec).Ok?
    ensures BucketOf(rt, key, total)(rec) == RowBucket(rt, total)(ToRow(rt, key, rec).value)
  {
  }

  lemma {:induction false} RowsOkIff(rt: Runtime, key: string, recs: seq<Value>)
    ensures ToRows(rt, key, recs).Ok? <==> forall r :: r in recs ==> ToRow(rt, key, r).Ok?
  {
    if recs == [] {
    } else {
      var init, last := recs[..|recs| - 1], recs[|recs| - 1];
      RowsOkIff(rt, key, init);
      assert recs == init + [last];
    }
  }

  /** Shuffling records is shuffling their rows. */
  lemma {:induction false} RowsOfBucket(rt: Runtime, key: string, total: nat, recs: seq<Value>, b: nat)
    requires total > 0 && ToRows(rt, key, recs).Ok?
    ensures ToRows(rt, key, Bucket(recs, BucketOf(rt, key, total), b)) ==
            Ok(Bucket(ToRows(rt, key, recs).value, RowBucket(rt, total), b))
  {
    var at, rowAt := BucketOf(rt, key, total), RowBucket(rt, total);
    if recs == [] {
    } else {
      var init, last := recs[..|recs| - 1], recs[|recs| - 1];
      RowsOfBucket(rt, key, total, init, b);
      BucketsAgree(rt, key, total, last);
      var rows, row := ToRows(rt, key, init).value, ToRow(rt, key, last).value;
      assert recs == init + [last];
      BucketAppend(init, last, at, b);
      BucketAppend(rows, row, rowAt, b);
      var part := Bucket(init, at, b);
      if at(last) == b {
        assert (part + [last])[..|part|] == part;
      } else {
        assert part + [] == part;
        assert Bucket(rows, rowAt, b) + [] == Bucket(rows, rowAt, b);
      }
    }
  }

  /** All buckets have rows exactly when the whole input has. */
  lemma BucketsOkIff(rt: Runtime, key: string, total: nat, recs: seq<Value>)
    requires total > 0
    ensures ToRows(rt, key, recs).Ok? <==>
            forall b :: 0 <= b < total ==> ToRows(rt, key, Bucket(recs, BucketOf(rt, key, total), b)).Ok?
  {
    var at := BucketOf(rt, key, total);
    if ToRows(rt, key, recs).Ok? {
      forall b | 0 <= b < total ensures ToRows(rt, key, Bucket(recs, at, b)).Ok? {
        RowsOfBucket(rt, key, total, recs, b);
      }
    } else {
      RowsOkIff(rt, key, recs);
      var bad :| bad in recs && ToRow(rt, key, bad).Err?;
      InBucket(recs, at, at(bad), bad);
      RowsOkIff(rt, key, Bucket(recs, at, at(bad)));
    }
  }

  lemma MatchesInBucket(rt: Runtime, total: nat, rows: seq<Row>, k: string)
    requires total > 0
    ensures Matches(Bucket(rows, RowBucket(rt, total), KeyBucket(rt, total, k)), k) == Matches(rows, k)
  {
    SelectInBucket(rows, RowBucket(rt, total), KeyBucket(rt, total, k), (x: Row) => x.key == k);
  }

  lemma HasKeyInBucket(rt: Runtime, total: nat, rows: seq<Row>, k: string)
    requires total > 0
    ensures HasKey(Bucket(rows, RowBucket(rt, total), KeyBucket(rt, total, k)), k) <==> HasKey(rows, k)
  {
    MatchesInBucket(rt, total, rows, k);
    HasKeyIffMatches(rows, k);
    HasKeyIffMatches(Bucket(rows, RowBucket(rt, total), KeyBucket(rt, total, k)), k);
  }

  /** In its bucket a left row meets exactly its global matches. */
  lemma LeftPartOfBucket(rt: Runtime, jt: JoinType, total: nat, left: seq<Row>, right: seq<Row>, b: nat)
    requires total > 0
    ensures var at := RowBucket(rt, total);
            LeftPart(jt, Bucket(left, at, b), Bucket(right, at, b)) == Expand(Bucket(left, at, b), RowsOf(jt, right))
  {
    var at := RowBucket(rt, total);
    var lb, rb := Bucket(left, at, b), Bucket(right, at, b);
    forall l | l in lb ensures RowsOf(jt, rb)(l) == RowsOf(jt, right)(l) {
      InBucket(left, at, b, l);
      MatchesInBucket(rt, total, right, l.key);
    }
    ExpandExt(lb, RowsOf(jt, rb), RowsOf(jt, right));
  }

  /** Unmatched right rows, bucket by bucket. */
  ghost function RightPerBucket(rt: Runtime, total: nat, left: seq<Row>, right: seq<Row>): nat -> multiset<Value>
    requires total > 0
  {
    (b: nat) => multiset(CodeRight(Bucket(left, RowBucket(rt, total), b), Bucket(right, RowBucket(rt, total), b)))
  }

  lemma CodeRightAppend(left: seq<Row>, right: seq<Row>, r: Row)
    ensures CodeRight(left, right + [r]) ==
            CodeRight(left, right) + (if HasKey(left, r.key) &&
                                      r !in right then [] else [Object(CombineRightOnly(r.fields))])
  {
    assert (right + [r])[..|right|] == right;
  }

  /** The tail one right row adds is the same in its bucket and in the whole input. */
  lemma RightTail(rt: Runtime, total: nat, left: seq<Row>, right: seq<Row>, r: Row)
    requires total > 0
    ensures var at := RowBucket(rt, total);
            var b := at(r);
            && (HasKey(Bucket(left, at, b), r.key) <==> HasKey(left, r.key))
            && (r in Bucket(right, at, b) <==> r in right)
  {
    var at := RowBucket(rt, total);
    HasKeyInBucket(rt, total, left, r.key);
    InBucket(right, at, at(r), r);
  }

  lemma {:induction false} RightByBucket(rt: Runtime, total: nat, left: seq<Row>, right: seq<Row>)
    requires total > 0
    ensures SumOver(total, RightPerBucket(rt, total, left, right)) == multiset(CodeRight(left, right))
  {
    var at, g := RowBucket(rt, total), RightPerBucket(rt, total, left, right);
    if right == [] {
      SumZero(total, g);
    } else {
      var init, r := right[..|right| - 1], right[|right| - 1];
      assert right == init + [r];
      RightByBucket(rt, total, left, init);
      var g0 := RightPerBucket(rt, total, left, init);
      var tail := if HasKey(left, r.key) && r !in init then [] else [Object(CombineRightOnly(r.fields))];
      RightTail(rt, total, left, init, r);
      CodeRightAppend(left, init, r);
      forall b: nat | b < total ensures g(b) == if b == at(r) then g0(b) + multiset(tail) else g0(b) {
        BucketAppend(init, r, at, b);
        if b == at(r) {
          CodeRightAppend(Bucket(left, at, b), Bucket(init, at, b), r);
        } else {
          assert Bucket(right, at, b) == Bucket(init, at, b);
        }
      }
      SumUpdate(total, g0, g, at(r), multiset(tail));
    }
  }

  /** The rows of the bucket joins, bucket by bucket. */
  ghost function JoinPerBucket(rt: Runtime, jt: JoinType, total: nat, left: seq<Row>, right: seq<Row>)
    : nat -> multiset<Value>
    requires total > 0
  {
    (b: nat) => multiset(CodeJoin(jt, Bucket(left, RowBucket(rt, total), b), Bucket(right, RowBucket(rt, total), b)))
  }

  lemma JoinByBucket(rt: Runtime, jt: JoinType, total: nat, left: seq<Row>, right: seq<Row>)
    requires total > 0
    ensures SumOver(total, JoinPerBucket(rt, jt, total, left, right)) == multiset(CodeJoin(jt, left, right))
  {
    var at := RowBucket(rt, total);
    var lefts, rights := PerBucket(left, at, RowsOf(jt, right)), RightPerBucket(rt, total, left, right);
    var none := (b: nat) => multiset{};
    var both := JoinPerBucket(rt, jt, total, left, right);
    ExpandByBucket(left, at, total, RowsOf(jt, right));
    RightByBucket(rt, total, left, right);
    SumZero(total, none);
    forall b: nat | b < total ensures both(b) == lefts(b) + (if KeepsRight(jt) then rights(b) else none(b)) {
      LeftPartOfBucket(rt, jt, total, left, right, b);
    }
    if KeepsRight(jt) {
      SumAdd(total, lefts, rights, both);
    } else {
      SumAdd(total, lefts, none, both);
    }
  }

  /** Bucket `b` of both shuffled sides, joined. */
  function BucketJoin(rt: Runtime, key: string, jt: JoinType, total: nat, left: Partition, right: Partition, b: nat)
    : Result<seq<Partition>, JoinError>
    requires b < total
  {
    JoinOutcome(rt, key, jt, [Shuffled(rt, key, total, left.records)[b], Shuffled(rt, key, total, right.records)[b]])
  }

  /** The rows all bucket joins output. */
  ghost function BucketRows(rt: Runtime, key: string, jt: JoinType, total: nat, left: Partition, right: Partition)
    : nat -> multiset<Value>
  {
    (b: nat) =>
      if b < total && BucketJoin(rt, key, jt, total, left, right, b).Ok?
      then multiset(Records(BucketJoin(rt, key, jt, total, left, right, b).value)) else multiset{}
  }

  lemma OutcomeRecords(rt: Runtime, key: string, jt: JoinType, left: Partition, right: Partition)
    ensures var l, r := ToRows(rt, key, left.records), ToRows(rt, key, right.records);
            var out := JoinOutcome(rt, key, jt, [left, right]);
            (out.Ok? <==> l.Ok? && r.Ok?) && (out.Ok? ==> Records(out.value) == CodeJoin(jt, l.value, r.value))
  {
    var out := JoinOutcome(rt, key, jt, [left, right]);
    if out.Ok? {
      var p := out.value[0];
      assert out.value == [p] && [p][..0] == [];
      assert Records([p]) == Records([]) + p.records;
    }
  }

  lemma BucketJoinRows(rt: Runtime, key: string, jt: JoinType, total: nat, left: Partition, right: Partition, b: nat)
    requires b < total
    requires ToRows(rt, key, left.records).Ok? && ToRows(rt, key, right.records).Ok?
    ensures BucketRows(rt, key, jt, total, left, right)(b) ==
            JoinPerBucket(rt, jt, total, ToRows(rt, key, left.records).value, ToRows(rt, key, right.records).value)(b)
  {
    RowsOfBucket(rt, key, total, left.records, b);
    RowsOfBucket(rt, key, total, right.records, b);
    OutcomeRecords(rt, key, jt, Shuffled(rt, key, total, left.records)[b], Shuffled(rt, key, total, right.records)[b]);
  }

  /** All bucket joins succeed exactly when the whole join does. */
  lemma PartitionedJoinErrors(rt: Runtime, key: string, jt: JoinType, total: nat, left: Partition, right: Partition)
    requires total > 0
    ensures (forall b :: 0 <= b < total ==> BucketJoin(rt, key, jt, total, left, right, b).Ok?) <==>
            JoinOutcome(rt, key, jt, [left, right]).Ok?
  {
    BucketsOkIff(rt, key, total, left.records);
    BucketsOkIff(rt, key, total, right.records);
    OutcomeRecords(rt, key, jt, left, right);
    forall b | 0 <= b < total
      ensures BucketJoin(rt, key, jt, total, left, right, b).Ok? <==>
              ToRows(rt, key, Bucket(left.records, BucketOf(rt, key, total), b)).Ok? &&
              ToRows(rt, key, Bucket(right.records, BucketOf(rt, key, total), b)).Ok?
    {
      OutcomeRecords(rt, key, jt, Shuffled(rt, key, total, left.records)[b],
                     Shuffled(rt, key, total, right.records)[b]);
    }
  }

  /** The bucket joins output together exactly the rows of the whole join, for every join type and all records. */
  lemma PartitionedJoinRows(rt: Runtime, key: string, jt: JoinType, total: nat, left: Partition, right: Partition)
    requires total > 0 && JoinOutcome(rt, key, jt, [left, right]).Ok?
    ensures SumOver(total, BucketRows(rt, key, jt, total, left, right)) ==
            multiset(Records(JoinOutcome(rt, key, jt, [left, right]).value))
  {
    OutcomeRecords(rt, key, jt, left, right);
    var l, r := ToRows(rt, key, left.records).value, ToRows(rt, key, right.records).value;
    forall b | 0 <= b < total
      ensures BucketRows(rt, key, jt, total, left, right)(b) == JoinPerBucket(rt, jt, total, l, r)(b)
    {
      BucketJoinRows(rt, key, jt, total, left, right, b);
    }
    SumExt(total, BucketRows(rt, key, jt, total, left, right), JoinPerBucket(rt, jt, total, l, r));
    JoinByBucket(rt, jt, total, l, r);
  }
}
