/** The shuffle operator: records go to the bucket their key hashes to. */
module Shuffle {
  import opened Prelude
  import opened Values
  import opened Platform
  import opened Buckets

  /** What the hasher sees of a record: text of string and number keys, booleans, zero for the rest. */
  function HashOf(rt: Runtime, key: string, rec: Value): HashInput {
    if rec.Object? && key in rec.fields then
      match rec.fields[key]
      case Str(s) => Text(s)
      case Num(n) => Text(rt.numText(n))
      case Bool(b) => Flag(b)
      case _ => Zero
    else Zero
  }

  function ComputeBucket(rt: Runtime, key: string, total: nat, rec: Value): (b: nat)
    requires total > 0
    ensures b < total
  {
    rt.hash(HashOf(rt, key, rec)) % total
  }

  function Records(parts: seq<Partition>): seq<Value> {
    if parts == [] then [] else Records(parts[..|parts| - 1]) + parts[|parts| - 1].records
  }

  /** The bucket of a record, as a function of the record. */
  function BucketOf(rt: Runtime, key: string, total: nat): Value -> nat
    requires total > 0
  {
    rec => ComputeBucket(rt, key, total, rec)
  }

  /** Bucket `b` holds, in input order, exactly the records whose key hashes to `b`. */
  function Shuffled(rt: Runtime, key: string, total: nat, recs: seq<Value>): (r: seq<Partition>)
    requires total > 0
    ensures |r| == total
    ensures forall b :: 0 <= b < total ==> r[b] == Partition(b, Bucket(recs, BucketOf(rt, key, total), b))
  {
    seq(total, b requires 0 <= b < total => Partition(b, Bucket(recs, BucketOf(rt, key, total), b)))
  }

  /** `ShuffleByKeyOp::execute`. */
  method ShuffleByKey(rt: Runtime, key: string, total: nat, parts: seq<Partition>)
    returns (r: Result<seq<Partition>, string>)
    ensures total == 0 ==> r.Err?
    ensures total > 0 ==> r == Ok(Shuffled(rt, key, total, Records(parts)))
  {
    if total == 0 {
      return Err("shuffle: total_partitions must be > 0");
    }
    ghost var at := BucketOf(rt, key, total);
    var buckets: seq<seq<Value>> := seq(total, _ => []);
    for i := 0 to |parts|
      invariant |buckets| == total
      invariant forall b :: 0 <= b < total ==> buckets[b] == Bucket(Records(parts[..i]), at, b)
    {
      assert parts[..i + 1][..i] == parts[..i];
      buckets := Scatter(rt, key, total, parts[i].records, buckets, Records(parts[..i]));
    }
    assert parts[..|parts|] == parts;
    var out: seq<Partition> := [];
    for b := 0 to total
      invariant |out| == b
      invariant forall j :: 0 <= j < b ==> out[j] == Partition(j, buckets[j])
    {
      out := out + [Partition(b, buckets[b])];
    }
    assert out == Shuffled(rt, key, total, Records(parts));
    r := Ok(out);
  }

  /** Appends each record of one partition to its bucket. */
  method Scatter(rt: Runtime, key: string, total: nat, records: seq<Value>, buckets: seq<seq<Value>>,
                 ghost before: seq<Value>)
    returns (buckets': seq<seq<Value>>)
    requires total > 0 && |buckets| == total
    requires forall b :: 0 <= b < total ==> buckets[b] == Bucket(before, BucketOf(rt, key, total), b)
    ensures |buckets'| == total
    ensures forall b :: 0 <= b < total ==> buckets'[b] == Bucket(before + records, BucketOf(rt, key, total), b)
  {
    ghost var at := BucketOf(rt, key, total);
    buckets' := buckets;
    assert before + records[..0] == before;
    for j := 0 to |records|
      invariant |buckets'| == total
      invariant forall b :: 0 <= b < total ==> buckets'[b] == Bucket(before + records[..j], at, b)
    {
      assert before + records[..j + 1] == (before + records[..j]) + [records[j]];
      var target := ComputeBucket(rt, key, total, records[j]);
      forall b | 0 <= b < total
        ensures Bucket(before + records[..j + 1], at, b) ==
                Bucket(before + records[..j], at, b) + (if at(records[j]) == b then [records[j]] else [])
      {
        BucketAppend(before + records[..j], records[j], at, b);
      }
      buckets' := buckets'[target := buckets'[target] + [records[j]]];
    }
    assert records[..|records|] == records;
  }

  /** What decides the bucket: the text of a string or number, a boolean, and nothing for all other records. */
  lemma ShuffleContents(rt: Runtime, key: string, total: nat, recs: seq<Value>, b: nat, rec: Value)
    requires b < total
    ensures var found := if rec.Object? && key in rec.fields then rec.fields[key] else Null;
            var bucket := if found.Str? then rt.hash(Text(found.s)) % total
                          else if found.Num? then rt.hash(Text(rt.numText(found.n))) % total
                          else if found.Bool? then rt.hash(Flag(found.b)) % total
                          else rt.hash(Zero) % total;
            rec in Shuffled(rt, key, total, recs)[b].records <==> rec in recs && bucket == b
  {
    InBucket(recs, BucketOf(rt, key, total), b, rec);
  }

  /** The records of partition `b`, as a multiset. */
  ghost function Contents(parts: seq<Partition>): nat -> multiset<Value> {
    (b: nat) => if b < |parts| then multiset(parts[b].records) else multiset{}
  }

  /** Shuffling loses and duplicates nothing. */
  lemma ShuffleConserves(rt: Runtime, key: string, total: nat, recs: seq<Value>)
    requires total > 0
    ensures SumOver(total, Contents(Shuffled(rt, key, total, recs))) == multiset(recs)
  {
    var at, unit := BucketOf(rt, key, total), (x: Value) => [x];
    ExpandByBucket(recs, at, total, unit);
    ExpandUnit(recs, unit);
    forall b: nat ensures Expand(Bucket(recs, at, b), unit) == Bucket(recs, at, b) {
      ExpandUnit(Bucket(recs, at, b), unit);
    }
    SumExt(total, PerBucket(recs, at, unit), Contents(Shuffled(rt, key, total, recs)));
  }

  lemma {:induction false} ExpandUnit<A>(s: seq<A>, unit: A -> seq<A>)
    requires forall x :: x in s ==> unit(x) == [x]
    ensures Expand(s, unit) == s
  {
    if s == [] {
    } else {
      ExpandUnit(s[..|s| - 1], unit);
    }
  }
}
