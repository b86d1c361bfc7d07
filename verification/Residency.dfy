/**
 The pipeline with its spill files: a partition that exceeds the memory limit lives in a file whose path other
 partitions of the task may share. Files are read at record level, as the spill cache proves them to behave.
 */
module Residency {
  import opened Prelude
  import opened Dag
  import opened Ordering
  import opened Planner
  import opened Values
  import opened Pipeline
  import opened Execution
  import opened Transforms
  import Sp = Spill

  /** How partitions are stored: record sizes, the memory limit, and the spill path of output `i` of a node. */
  datatype Settings = Settings(codec: Sp.Codec, limit: nat, paths: (string, nat) -> string)

  datatype Stored = Resident(part: Partition) | Spilled(id: nat, path: string)

  type Files = map<string, seq<Value>>

  /** The results map of the loop, and the spill files. */
  datatype World = World(results: map<string, seq<Stored>>, files: Files)

  predicate Fits(e: Settings, p: Partition) {
    Sp.Size(e.codec, p.records) <= e.limit
  }

  // ----- storing and loading

  function Held(files: Files, path: string): seq<Value> {
    if path in files then files[path] else []
  }

  /** `from_records`: a partition that does not fit is appended to its spill file. */
  function Store(e: Settings, path: string, p: Partition, files: Files): (Stored, Files) {
    if Fits(e, p) then (Resident(p), files)
    else (Spilled(p.id, path), files[path := Held(files, path) + p.records])
  }

  /** The outputs of node `id`, one after the other. */
  function StoreAll(e: Settings, id: string, outs: seq<Partition>, files: Files): (seq<Stored>, Files) {
    if outs == [] then ([], files)
    else
      var last := |outs| - 1;
      var (sts, before) := StoreAll(e, id, outs[..last], files);
      var (st, after) := Store(e, e.paths(id, last), outs[last], before);
      (sts + [st], after)
  }

  /** `into_parts`: a spilled partition is whatever its file holds, and the file is removed. */
  function Load(st: Stored, files: Files): Result<(Partition, Files), string> {
    match st
    case Resident(p) => Ok((p, files))
    case Spilled(id, path) =>
      if path in files then Ok((Partition(id, files[path]), files - {path})) else Err("opening spill file")
  }

  function LoadAll(sts: seq<Stored>, files: Files): Result<(seq<Partition>, Files), string> {
    if sts == [] then Ok(([], files))
    else
      match LoadAll(sts[..|sts| - 1], files)
      case Err(x) => Err(x)
      case Ok((parts, before)) =>
        match Load(sts[|sts| - 1], before)
        case Err(x) => Err(x)
        case Ok((p, after)) => Ok((parts + [p], after))
  }

  /** Takes the results of `parents` out of the map, without loading them. */
  function Collect(parents: seq<string>, results: map<string, seq<Stored>>): (seq<Stored>, map<string, seq<Stored>>) {
    if parents == [] then ([], results)
    else
      var p := parents[|parents| - 1];
      var (sts, rest) := Collect(parents[..|parents| - 1], results);
      if p in rest then (sts + rest[p], rest - {p}) else (sts, rest)
  }

  function StoredInputs(empty: Partition, parents: seq<string>, results: map<string, seq<Stored>>)
    : (seq<Stored>, map<string, seq<Stored>>)
  {
    if parents == [] then ([Resident(empty)], results) else Collect(parents, results)
  }

  /** Map, filter and flat-map load, transform and store one partition after the other. */
  function Transform(e: Settings, exec: Exec, st: Stage, sts: seq<Stored>, files: Files)
    : Result<(seq<Stored>, Files), string>
  {
    if sts == [] then
      match exec(st.id, st.operator, [])
      case Err(x) => Err(x)
      case Ok(_) => Ok(([], files))
    else
      match Transform(e, exec, st, sts[..|sts| - 1], files)
      case Err(x) => Err(x)
      case Ok((outs, f1)) =>
        match Load(sts[|sts| - 1], f1)
        case Err(x) => Err(x)
        case Ok((p, f2)) =>
          match exec(st.id, st.operator, [p])
          case Err(x) => Err(x)
          case Ok(made) =>
            if made == [] then Ok((outs, f2))
            else
              var (out, f3) := Store(e, e.paths(st.id, |outs|), made[0], f2);
              Ok((outs + [out], f3))
  }

  /** The other operators load all their inputs before they store an output. */
  function LoadThenStore(e: Settings, exec: Exec, st: Stage, sts: seq<Stored>, files: Files)
    : Result<(seq<Stored>, Files), string>
  {
    match LoadAll(sts, files)
    case Err(x) => Err(x)
    case Ok((ins, f1)) =>
      match exec(st.id, st.operator, ins)
      case Err(x) => Err(x)
      case Ok(outs) => Ok(StoreAll(e, st.id, outs, f1))
  }

  /** A read does not look at its inputs: their files stay behind. */
  function ReadAndStore(e: Settings, exec: Exec, st: Stage, files: Files): Result<(seq<Stored>, Files), string> {
    match exec(st.id, st.operator, [])
    case Err(x) => Err(x)
    case Ok(outs) => Ok(StoreAll(e, st.id, outs, files))
  }

  function Produce(e: Settings, exec: Exec, st: Stage, sts: seq<Stored>, files: Files)
    : Result<(seq<Stored>, Files), string>
  {
    if RecordWise(st.operator) then Transform(e, exec, st, sts, files)
    else if st.operator.Read? then ReadAndStore(e, exec, st, files)
    else LoadThenStore(e, exec, st, sts, files)
  }

  function StoredStep(e: Settings, exec: Exec, empty: Partition, w: World, st: Stage): Result<World, string> {
    var (sts, rest) := StoredInputs(empty, st.parents, w.results);
    match Produce(e, exec, st, sts, w.files)
    case Err(x) => Err(x)
    case Ok((outs, files)) => Ok(World(rest[st.id := outs], files))
  }

  function StoredStages(e: Settings, exec: Exec, empty: Partition, stages: seq<Stage>): Result<World, string> {
    if stages == [] then Ok(World(map[], map[]))
    else
      match StoredStages(e, exec, empty, stages[..|stages| - 1])
      case Err(x) => Err(x)
      case Ok(w) => StoredStep(e, exec, empty, w, stages[|stages| - 1])
  }

  function StoredRun(e: Settings, exec: Exec, empty: Partition, stages: seq<Stage>, finalKey: string)
    : Result<seq<Partition>, string>
  {
    match StoredStages(e, exec, empty, stages)
    case Err(x) => Err(x)
    case Ok(w) =>
      if finalKey !in w.results then Err("missing final operator output")
      else
        match LoadAll(w.results[finalKey], w.files)
        case Err(x) => Err(x)
        case Ok((parts, _)) => Ok(parts)
  }

  // ----- live spilled partitions

  /** Output `i` of node `id` is live and does not fit. */
  ghost predicate Slot(e: Settings, results: Results, id: string, i: int) {
    id in results && 0 <= i < |results[id]| && !Fits(e, results[id][i])
  }

  /** No two live spilled partitions share a path. */
  ghost predicate Apart(e: Settings, results: Results) {
    forall a, i: nat, b, j: nat ::
      Slot(e, results, a, i) && Slot(e, results, b, j) && e.paths(a, i) == e.paths(b, j) ==> a == b && i == j
  }

  /** The files are exactly those of the live spilled partitions, each with its records. */
  ghost predicate FilesHold(e: Settings, files: Files, results: Results) {
    && (forall id, i: nat :: Slot(e, results, id, i) ==>
        e.paths(id, i) in files && files[e.paths(id, i)] == results[id][i].records)
    && forall path :: path in files ==> Owned(e, results, path)
  }

  ghost predicate Owned(e: Settings, results: Results, path: string) {
    exists id, i: nat :: Slot(e, results, id, i) && e.paths(id, i) == path
  }

  /** How the outputs of a node are remembered. */
  function Kept(e: Settings, id: string, outs: seq<Partition>): (r: seq<Stored>)
    ensures |r| == |outs|
    ensures forall i :: 0 <= i < |r| ==>
            r[i] == if Fits(e, outs[i]) then Resident(outs[i]) else Spilled(outs[i].id, e.paths(id, i))
  {
    seq(|outs|, i requires 0 <= i < |outs| =>
      if Fits(e, outs[i]) then Resident(outs[i]) else Spilled(outs[i].id, e.paths(id, i)))
  }

  ghost predicate Represents(e: Settings, w: World, results: Results) {
    && w.results.Keys == results.Keys
    && (forall id :: id in results ==> w.results[id] == Kept(e, id, results[id]))
    && FilesHold(e, w.files, results)
  }

  // ----- loading gives back what was stored

  /** The paths of the first `k` outputs of a node that do not fit. */
  ghost function PathsOf(e: Settings, id: string, outs: seq<Partition>, k: nat): set<string>
    requires k <= |outs|
  {
    set i: nat | i < k && !Fits(e, outs[i]) :: e.paths(id, i)
  }

  lemma {:induction false} LoadPrefix(e: Settings, files: Files, results: Results, id: string, k: nat)
    requires FilesHold(e, files, results) && Apart(e, results) && id in results && k <= |results[id]|
    ensures LoadAll(Kept(e, id, results[id])[..k], files) ==
            Ok((results[id][..k], files - PathsOf(e, id, results[id], k)))
  {
    var outs, sts := results[id], Kept(e, id, results[id]);
    if k == 0 {
      assert files - PathsOf(e, id, outs, 0) == files;
    } else {
      var i := k - 1;
      LoadPrefix(e, files, results, id, i);
      TakeNext(sts, i);
      TakeNext(outs, i);
      assert sts[..k][..i] == sts[..i];
      var before, path := files - PathsOf(e, id, outs, i), e.paths(id, i);
      if Fits(e, outs[i]) {
        assert PathsOf(e, id, outs, k) == PathsOf(e, id, outs, i);
      } else {
        assert Slot(e, results, id, i);
        forall j: nat | j < i && !Fits(e, outs[j]) ensures e.paths(id, j) != path {
          assert Slot(e, results, id, j);
        }
        assert path in before && before[path] == outs[i].records;
        assert PathsOf(e, id, outs, k) == PathsOf(e, id, outs, i) + {path};
        assert before - {path} == files - PathsOf(e, id, outs, k);
      }
    }
  }

  lemma SlotKept(e: Settings, results: Results, id: string)
    requires id in results
    ensures forall b, j :: Slot(e, results - {id}, b, j) <==> b != id && Slot(e, results, b, j)
  {
  }

  /** After loading a node's outputs the files are those of the other live partitions. */
  lemma LoadNode(e: Settings, w: World, results: Results, id: string)
    requires Represents(e, w, results) && Apart(e, results) && id in results
    ensures var loaded := LoadAll(w.results[id], w.files);
            loaded.Ok? && loaded.value.0 == results[id] &&
              Represents(e, World(w.results - {id}, loaded.value.1), results - {id})
    ensures Apart(e, results - {id})
  {
    var outs, gone := results[id], PathsOf(e, id, results[id], |results[id]|);
    LoadPrefix(e, w.files, results, id, |outs|);
    assert Kept(e, id, outs)[..|outs|] == Kept(e, id, outs) && outs[..|outs|] == outs;
    SlotKept(e, results, id);
    LoadedFiles(e, w.files, results, id);
  }

  lemma LoadedFiles(e: Settings, files: Files, results: Results, id: string)
    requires FilesHold(e, files, results) && Apart(e, results) && id in results
    ensures FilesHold(e, files - PathsOf(e, id, results[id], |results[id]|), results - {id})
  {
    var outs, rest := results[id], results - {id};
    var gone := PathsOf(e, id, outs, |outs|);
    var after := files - gone;
    SlotKept(e, results, id);
    forall b, j: nat | Slot(e, rest, b, j)
      ensures e.paths(b, j) in after && after[e.paths(b, j)] == rest[b][j].records
    {
      forall i: nat | i < |outs| && !Fits(e, outs[i]) ensures e.paths(id, i) != e.paths(b, j) {
        assert Slot(e, results, id, i) && Slot(e, results, b, j);
      }
    }
    forall path | path in after ensures Owned(e, rest, path) {
      var b, j: nat :| Slot(e, results, b, j) && e.paths(b, j) == path;
      assert b == id ==> path in gone;
      assert Slot(e, rest, b, j);
    }
  }

  lemma {:induction false} LoadConcat(a: seq<Stored>, b: seq<Stored>, files: Files)
    requires LoadAll(a, files).Ok?
    ensures var first := LoadAll(a, files).value;
            LoadAll(a + b, files) ==
            match LoadAll(b, first.1)
            case Err(x) => Err(x)
            case Ok((parts, after)) => Ok((first.0 + parts, after))
  {
    if b == [] {
      assert a + b == a;
      assert LoadAll(a, files).value.0 + [] == LoadAll(a, files).value.0;
    } else {
      assert (a + b)[..|a + b| - 1] == a + b[..|b| - 1];
      LoadConcat(a, b[..|b| - 1], files);
      var first := LoadAll(a, files).value;
      var rest := LoadAll(b[..|b| - 1], first.1);
      if rest.Ok? && Load(b[|b| - 1], rest.value.1).Ok? {
        AppendInside(first.0, rest.value.0, Load(b[|b| - 1], rest.value.1).value.0);
      }
    }
  }

  /** Paths of the gathered partitions, in the order in which they are gathered. */
  ghost function PathsIn(e: Settings, parents: seq<string>, results: Results): seq<string> {
    if parents == [] then []
    else
      var init, p := parents[..|parents| - 1], parents[|parents| - 1];
      var rest := Gather(init, results).1;
      PathsIn(e, init, results) + (if p in rest then OutputPaths(e, p, |rest[p]|) else [])
  }

  function OutputPaths(e: Settings, id: string, n: nat): (r: seq<string>)
    ensures |r| == n && forall i :: 0 <= i < n ==> r[i] == e.paths(id, i)
  {
    seq(n, i requires 0 <= i < n => e.paths(id, i))
  }

  /** The paths a stage's inputs would have; without parents the input is the empty partition. */
  ghost function InputPaths(e: Settings, parents: seq<string>, results: Results): seq<string> {
    if parents == [] then [""] else PathsIn(e, parents, results)
  }

  /** What fits is in memory, and the rest at its path. */
  ghost predicate StoredAs(e: Settings, sts: seq<Stored>, ins: seq<Partition>, paths: seq<string>) {
    && |sts| == |ins| == |paths|
    && forall j :: 0 <= j < |sts| ==>
       sts[j] == if Fits(e, ins[j]) then Resident(ins[j]) else Spilled(ins[j].id, paths[j])
  }

  /** `sts` are the stored forms of `ins`, and loading them leaves a world for `left`. */
  ghost predicate Loadable(e: Settings, sts: seq<Stored>, files: Files, rest: map<string, seq<Stored>>,
                           ins: seq<Partition>, paths: seq<string>, left: Results)
  {
    && StoredAs(e, sts, ins, paths)
    && LoadAll(sts, files).Ok? && LoadAll(sts, files).value.0 == ins
    && Represents(e, World(rest, LoadAll(sts, files).value.1), left) && Apart(e, left)
  }

  /** Collecting gives a stage the stored forms of the inputs it would have without spill files. */
  lemma {:induction false} CollectAgrees(e: Settings, parents: seq<string>, w: World, results: Results)
    requires Represents(e, w, results) && Apart(e, results)
    ensures var (sts, rest) := Collect(parents, w.results);
            var (ins, left) := Gather(parents, results);
            Loadable(e, sts, w.files, rest, ins, PathsIn(e, parents, results), left)
  {
    if parents == [] {
    } else {
      var init, p := parents[..|parents| - 1], parents[|parents| - 1];
      CollectAgrees(e, init, w, results);
      var (sts, rest) := Collect(init, w.results);
      var (ins, left) := Gather(init, results);
      if p in left {
        CollectOne(e, sts, w.files, rest, ins, PathsIn(e, init, results), left, p);
      }
    }
  }

  lemma CollectOne(e: Settings, sts: seq<Stored>, files: Files, rest: map<string, seq<Stored>>,
                   ins: seq<Partition>, paths: seq<string>, left: Results, p: string)
    requires Loadable(e, sts, files, rest, ins, paths, left) && p in left
    ensures p in rest
    ensures Loadable(e, sts + rest[p], files, rest - {p}, ins + left[p],
                     paths + OutputPaths(e, p, |left[p]|), left - {p})
  {
    var w := World(rest, LoadAll(sts, files).value.1);
    LoadNode(e, w, left, p);
    LoadConcat(sts, rest[p], files);
    StoredConcat(e, sts, ins, paths, rest[p], left[p], OutputPaths(e, p, |left[p]|));
  }

  lemma StoredConcat(e: Settings, a: seq<Stored>, x: seq<Partition>, u: seq<string>, b: seq<Stored>, y: seq<Partition>,
                     v: seq<string>)
    requires StoredAs(e, a, x, u) && StoredAs(e, b, y, v)
    ensures StoredAs(e, a + b, x + y, u + v)
  {
    forall i | 0 <= i < |a + b|
      ensures (a + b)[i] == if Fits(e, (x + y)[i]) then Resident((x + y)[i]) else Spilled((x + y)[i].id, (u + v)[i])
    {
      if i >= |a| {
        assert (a + b)[i] == b[i - |a|] && (x + y)[i] == y[i - |a|] && (u + v)[i] == v[i - |a|];
      }
    }
  }

  lemma InputsLoadable(e: Settings, empty: Partition, parents: seq<string>, w: World, results: Results)
    requires Represents(e, w, results) && Apart(e, results) && Fits(e, empty)
    ensures var (sts, rest) := StoredInputs(empty, parents, w.results);
            var (ins, left) := Inputs(empty, parents, results);
            Loadable(e, sts, w.files, rest, ins, InputPaths(e, parents, results), left)
  {
    if parents == [] {
      LoadResidents([Resident(empty)], [empty], w.files);
    } else {
      CollectAgrees(e, parents, w, results);
    }
  }

  /** Loading partitions that are in memory touches no file. */
  lemma {:induction false} LoadResidents(sts: seq<Stored>, ins: seq<Partition>, files: Files)
    requires |sts| == |ins| && forall i :: 0 <= i < |sts| ==> sts[i] == Resident(ins[i])
    ensures LoadAll(sts, files) == Ok((ins, files))
  {
    if sts == [] {
    } else {
      var last := |sts| - 1;
      LoadResidents(sts[..last], ins[..last], files);
      assert ins == ins[..last] + [ins[last]];
    }
  }

  // ----- one partition after the other

  /** Map, filter and flat-map work on each partition by itself; reads do not look at their inputs. */
  ghost predicate EngineLike(exec: Exec) {
    && (forall id, op :: RecordWise(op) ==> exec(id, op, []).Err? || exec(id, op, []) == Ok([]))
    && (forall id, op, parts :: RecordWise(op) && |parts| > 0 ==> WorksOneByOne(exec, id, op, parts))
    && forall id, op: OperatorType, parts :: op.Read? ==> exec(id, op, parts) == exec(id, op, [])
  }

  ghost predicate WorksOneByOne(exec: Exec, id: string, op: OperatorType, parts: seq<Partition>)
    requires |parts| > 0
  {
    var made := exec(id, op, [parts[|parts| - 1]]);
    exec(id, op, parts) == Joined(exec(id, op, parts[..|parts| - 1]), made) && (made.Ok? ==> |made.value| == 1)
  }

  function Joined(a: Result<seq<Partition>, string>, b: Result<seq<Partition>, string>)
    : Result<seq<Partition>, string>
  {
    match a
    case Err(x) => Err(x)
    case Ok(outs) =>
      match b
      case Err(x) => Err(x)
      case Ok(more) => Ok(outs + more)
  }

  /** Storing after loading, as a whole. */
  function StoreMade(e: Settings, id: string, made: Result<seq<Partition>, string>, files: Files)
    : Result<(seq<Stored>, Files), string>
  {
    match made
    case Err(x) => Err(x)
    case Ok(outs) => Ok(StoreAll(e, id, outs, files))
  }

  /** What is remembered of stored outputs does not depend on the files. */
  lemma {:induction false} StoredIsKept(e: Settings, id: string, outs: seq<Partition>, files: Files)
    ensures StoreAll(e, id, outs, files).0 == Kept(e, id, outs)
  {
    if outs != [] {
      var last := |outs| - 1;
      StoredIsKept(e, id, outs[..last], files);
      assert Kept(e, id, outs) == Kept(e, id, outs[..last]) + [Kept(e, id, outs)[last]];
    }
  }

  lemma StoreOneMore(e: Settings, id: string, outs: seq<Partition>, o: Partition, files: Files)
    ensures var (sts, f1) := StoreAll(e, id, outs, files);
            var (st, f2) := Store(e, e.paths(id, |outs|), o, f1);
            StoreAll(e, id, outs + [o], files) == (sts + [st], f2)
  {
    assert (outs + [o])[..|outs|] == outs;
  }

  /** None of the outputs is stored where `s` lies. */
  ghost predicate Elsewhere(e: Settings, id: string, outs: seq<Partition>, s: Stored) {
    s.Spilled? ==> forall i: nat :: i < |outs| && !Fits(e, outs[i]) ==> e.paths(id, i) != s.path
  }

  /** Storing at one path and loading from another commute. */
  lemma StoreThenLoad(e: Settings, path: string, o: Partition, s: Stored, files: Files)
    requires Load(s, files).Ok? && (s.Spilled? && !Fits(e, o) ==> path != s.path)
    ensures var (p, after) := Load(s, files).value;
            Load(s, Store(e, path, o, files).1) == Ok((p, Store(e, path, o, after).1))
  {
    if s.Spilled? && !Fits(e, o) {
      var after := files - {s.path};
      assert files[path := Held(files, path) + o.records] - {s.path} == after[path := Held(after, path) + o.records];
    }
  }

  lemma {:induction false} StoreAllThenLoad(e: Settings, id: string, outs: seq<Partition>, s: Stored, files: Files)
    requires Load(s, files).Ok? && Elsewhere(e, id, outs, s)
    ensures var (p, after) := Load(s, files).value;
            Load(s, StoreAll(e, id, outs, files).1) == Ok((p, StoreAll(e, id, outs, after).1))
  {
    if outs != [] {
      var last := |outs| - 1;
      StoreAllThenLoad(e, id, outs[..last], s, files);
      StoreThenLoad(e, e.paths(id, last), outs[last], s, StoreAll(e, id, outs[..last], files).1);
    }
  }

  /** The outputs made before input `j` is loaded are stored away from it. */
  ghost predicate Clear(e: Settings, exec: Exec, st: Stage, ins: seq<Partition>, sts: seq<Stored>, j: nat)
    requires j < |ins| && j < |sts|
  {
    var made := exec(st.id, st.operator, ins[..j]);
    made.Ok? ==> Elsewhere(e, st.id, made.value, sts[j])
  }

  /** One more partition is loaded, transformed and stored. */
  lemma TransformNext(e: Settings, exec: Exec, st: Stage, sts: seq<Stored>, ins: seq<Partition>, before: Files,
                      files: Files, k: nat)
    requires EngineLike(exec) && RecordWise(st.operator) && k < |sts| == |ins|
    requires Transform(e, exec, st, sts[..k], files) == StoreMade(e, st.id, exec(st.id, st.operator, ins[..k]), before)
    requires Clear(e, exec, st, ins, sts, k) && Load(sts[k], before).Ok? && Load(sts[k], before).value.0 == ins[k]
    ensures Transform(e, exec, st, sts[..k + 1], files) ==
            StoreMade(e, st.id, exec(st.id, st.operator, ins[..k + 1]), Load(sts[k], before).value.1)
  {
    TakeNext(sts, k);
    TakeNext(ins, k);
    assert sts[..k + 1][..k] == sts[..k] && ins[..k + 1][..k] == ins[..k];
    assert WorksOneByOne(exec, st.id, st.operator, ins[..k + 1]);
    var made, one := exec(st.id, st.operator, ins[..k]), exec(st.id, st.operator, [ins[k]]);
    if made.Ok? {
      StoreAllThenLoad(e, st.id, made.value, sts[k], before);
      if one.Ok? {
        assert one.value == [one.value[0]];
        StoredIsKept(e, st.id, made.value, before);
        StoredIsKept(e, st.id, made.value, Load(sts[k], before).value.1);
        StoreOneMore(e, st.id, made.value, one.value[0], Load(sts[k], before).value.1);
      }
    }
  }

  /** Loading a longer list loads its prefix first. */
  lemma LoadSplit(sts: seq<Stored>, files: Files, k: nat)
    requires k < |sts| && LoadAll(sts[..k + 1], files).Ok?
    ensures LoadAll(sts[..k], files).Ok? && Load(sts[k], LoadAll(sts[..k], files).value.1).Ok?
    ensures var (parts, before) := LoadAll(sts[..k], files).value;
            var (p, after) := Load(sts[k], before).value;
            LoadAll(sts[..k + 1], files).value == (parts + [p], after)
  {
    assert sts[..k + 1][..k] == sts[..k];
  }

  lemma {:induction false} LoadPrefixOk(sts: seq<Stored>, files: Files, k: nat)
    requires k <= |sts| && LoadAll(sts, files).Ok?
    ensures |LoadAll(sts, files).value.0| == |sts|
    ensures LoadAll(sts[..k], files).Ok? && LoadAll(sts[..k], files).value.0 == LoadAll(sts, files).value.0[..k]
    decreases |sts|
  {
    if k == |sts| {
      assert sts[..k] == sts;
      LoadLength(sts, files);
    } else {
      var init := sts[..|sts| - 1];
      assert sts[..|sts|] == sts && init[..k] == sts[..k];
      LoadSplit(sts, files, |sts| - 1);
      LoadPrefixOk(init, files, k);
    }
  }

  lemma {:induction false} LoadLength(sts: seq<Stored>, files: Files)
    requires LoadAll(sts, files).Ok?
    ensures |LoadAll(sts, files).value.0| == |sts|
  {
    if sts != [] {
      LoadLength(sts[..|sts| - 1], files);
    }
  }

  /** While outputs stay clear of inputs to come, transforming one by one is loading, transforming and storing all. */
  lemma {:induction false} TransformPrefix(e: Settings, exec: Exec, st: Stage, sts: seq<Stored>, ins: seq<Partition>,
                                           files: Files, k: nat)
    requires EngineLike(exec) && RecordWise(st.operator) && k <= |sts| == |ins|
    requires LoadAll(sts, files).Ok? && LoadAll(sts, files).value.0 == ins
    requires forall j :: 0 <= j < k ==> Clear(e, exec, st, ins, sts, j)
    ensures LoadAll(sts[..k], files).Ok?
    ensures Transform(e, exec, st, sts[..k], files) ==
            StoreMade(e, st.id, exec(st.id, st.operator, ins[..k]), LoadAll(sts[..k], files).value.1)
  {
    LoadPrefixOk(sts, files, k);
    if k > 0 {
      TransformPrefix(e, exec, st, sts, ins, files, k - 1);
      LoadSplit(sts, files, k - 1);
      assert ins[..k][k - 1] == ins[k - 1];
      LoadPrefixOk(sts, files, k - 1);
      TransformNext(e, exec, st, sts, ins, LoadAll(sts[..k - 1], files).value.1, files, k - 1);
    }
  }

  ghost predicate AllFitIn(e: Settings, ins: seq<Partition>) {
    forall i :: 0 <= i < |ins| ==> Fits(e, ins[i])
  }

  /** The stored forms of partitions. */
  function AsStored(e: Settings, ins: seq<Partition>, paths: seq<string>): (r: seq<Stored>)
    requires |ins| == |paths|
    ensures StoredAs(e, r, ins, paths)
  {
    seq(|ins|, j requires 0 <= j < |ins| => if Fits(e, ins[j]) then Resident(ins[j]) else Spilled(ins[j].id, paths[j]))
  }

  /**
   An operator that transforms one partition after the other stores no output on the path of an input it has yet to
   load, and a read leaves no file behind.
   */
  ghost predicate Orderly(e: Settings, exec: Exec, st: Stage, ins: seq<Partition>, paths: seq<string>) {
    && |ins| == |paths|
    && (RecordWise(st.operator) ==> forall j :: 0 <= j < |ins| ==> Clear(e, exec, st, ins, AsStored(e, ins, paths), j))
    && (st.operator.Read? ==> AllFitIn(e, ins))
  }

  /** Then the order of loading and storing does not matter. */
  lemma ProduceAgrees(e: Settings, exec: Exec, st: Stage, sts: seq<Stored>, ins: seq<Partition>, paths: seq<string>,
                      files: Files)
    requires EngineLike(exec) && Orderly(e, exec, st, ins, paths) && StoredAs(e, sts, ins, paths)
    requires LoadAll(sts, files).Ok? && LoadAll(sts, files).value.0 == ins
    ensures Produce(e, exec, st, sts, files) ==
            StoreMade(e, st.id, exec(st.id, st.operator, ins), LoadAll(sts, files).value.1)
  {
    if RecordWise(st.operator) {
      assert sts == AsStored(e, ins, paths);
      assert sts[..|sts|] == sts && ins[..|ins|] == ins;
      TransformPrefix(e, exec, st, sts, ins, files, |sts|);
    } else if st.operator.Read? {
      LoadResidents(sts, ins, files);
    }
  }

  // ----- storing keeps partitions apart

  /** `after` is `before` with the files of the first `k` outputs of a node. */
  ghost predicate Added(e: Settings, before: Files, id: string, outs: seq<Partition>, k: nat, after: Files)
    requires k <= |outs|
  {
    && after.Keys == before.Keys + PathsOf(e, id, outs, k)
    && (forall path :: path in before ==> after[path] == before[path])
    && forall i: nat :: i < k && !Fits(e, outs[i]) ==> after[e.paths(id, i)] == outs[i].records
  }

  /** The outputs that do not fit have paths of their own, none of them in use. */
  ghost predicate FreshPaths(e: Settings, files: Files, id: string, outs: seq<Partition>) {
    && (forall i: nat :: i < |outs| && !Fits(e, outs[i]) ==> e.paths(id, i) !in files)
    && forall i: nat, j: nat :: i < j < |outs| && !Fits(e, outs[i]) && !Fits(e, outs[j]) ==>
       e.paths(id, i) != e.paths(id, j)
  }

  lemma {:induction false} StorePrefix(e: Settings, files: Files, id: string, outs: seq<Partition>, k: nat)
    requires k <= |outs| && FreshPaths(e, files, id, outs)
    ensures var (sts, after) := StoreAll(e, id, outs[..k], files);
            sts == Kept(e, id, outs)[..k] && Added(e, files, id, outs, k, after)
  {
    if k > 0 {
      var i := k - 1;
      StorePrefix(e, files, id, outs, i);
      TakeNext(Kept(e, id, outs), i);
      assert outs[..k][..i] == outs[..i];
      var before := StoreAll(e, id, outs[..i], files).1;
      AddedNext(e, files, id, outs, i, before);
    }
  }

  /** An output that fits changes no file. */
  lemma AddedResident(e: Settings, files: Files, id: string, outs: seq<Partition>, i: nat, before: Files)
    requires i < |outs| && Fits(e, outs[i]) && Added(e, files, id, outs, i, before)
    ensures Added(e, files, id, outs, i + 1, before)
  {
    PathsNext(e, id, outs, i);
  }

  /** The file of an output with a fresh path is new. */
  lemma FreshIsNew(e: Settings, files: Files, id: string, outs: seq<Partition>, i: nat, before: Files)
    requires i < |outs| && FreshPaths(e, files, id, outs) && Added(e, files, id, outs, i, before) && !Fits(e, outs[i])
    ensures e.paths(id, i) !in before
  {
    forall k: nat | k < i && !Fits(e, outs[k]) ensures e.paths(id, k) != e.paths(id, i) {
    }
  }

  lemma AddedSpilled(e: Settings, files: Files, id: string, outs: seq<Partition>, i: nat, before: Files, after: Files)
    requires i < |outs| && !Fits(e, outs[i]) && Added(e, files, id, outs, i, before) && e.paths(id, i) !in before
    requires after == before[e.paths(id, i) := outs[i].records]
    ensures Added(e, files, id, outs, i + 1, after)
  {
    PathsNext(e, id, outs, i);
    assert after.Keys == before.Keys + {e.paths(id, i)};
    forall k: nat | k < i + 1 && !Fits(e, outs[k]) ensures after[e.paths(id, k)] == outs[k].records {
      if k < i {
        assert e.paths(id, k) in PathsOf(e, id, outs, i);
      }
    }
  }

  lemma AddedNext(e: Settings, files: Files, id: string, outs: seq<Partition>, i: nat, before: Files)
    requires i < |outs| && FreshPaths(e, files, id, outs) && Added(e, files, id, outs, i, before)
    ensures Added(e, files, id, outs, i + 1, Store(e, e.paths(id, i), outs[i], before).1)
  {
    if Fits(e, outs[i]) {
      AddedResident(e, files, id, outs, i, before);
    } else {
      FreshIsNew(e, files, id, outs, i, before);
      assert [] + outs[i].records == outs[i].records;
      AddedSpilled(e, files, id, outs, i, before, before[e.paths(id, i) := outs[i].records]);
    }
  }

  lemma PathsNext(e: Settings, id: string, outs: seq<Partition>, i: nat)
    requires i < |outs|
    ensures PathsOf(e, id, outs, i + 1) == PathsOf(e, id, outs, i) + (if Fits(e, outs[i]) then {} else {e.paths(id, i)})
  {
  }

  lemma NewSlots(e: Settings, results: Results, id: string, outs: seq<Partition>)
    requires id !in results
    ensures forall b, j :: Slot(e, results[id := outs], b, j) <==>
            Slot(e, results, b, j) || (b == id && 0 <= j < |outs| && !Fits(e, outs[j]))
  {
    var more := results[id := outs];
    forall b, j
      ensures Slot(e, more, b, j) <==> Slot(e, results, b, j) || (b == id && 0 <= j < |outs| && !Fits(e, outs[j]))
    {
      if b == id {
        assert more[b] == outs;
      } else if b in results {
        assert more[b] == results[b];
      }
    }
  }

  lemma OutputsAreFresh(e: Settings, files: Files, results: Results, id: string, outs: seq<Partition>)
    requires id !in results && FilesHold(e, files, results) && Apart(e, results[id := outs])
    ensures FreshPaths(e, files, id, outs)
  {
    var more := results[id := outs];
    NewSlots(e, results, id, outs);
    forall i: nat | i < |outs| && !Fits(e, outs[i]) ensures e.paths(id, i) !in files {
      assert Slot(e, more, id, i);
      forall b, j: nat | Slot(e, results, b, j) ensures e.paths(b, j) != e.paths(id, i) {
        assert Slot(e, more, b, j);
      }
      assert !Owned(e, results, e.paths(id, i));
    }
    forall i: nat, j: nat | i < j < |outs| && !Fits(e, outs[i]) && !Fits(e, outs[j])
      ensures e.paths(id, i) != e.paths(id, j)
    {
      assert Slot(e, more, id, i) && Slot(e, more, id, j);
    }
  }

  lemma AddedHolds(e: Settings, files: Files, results: Results, id: string, outs: seq<Partition>, after: Files)
    requires id !in results && FilesHold(e, files, results) && Added(e, files, id, outs, |outs|, after)
    ensures FilesHold(e, after, results[id := outs])
  {
    var more := results[id := outs];
    NewSlots(e, results, id, outs);
    forall b, j: nat | Slot(e, more, b, j)
      ensures e.paths(b, j) in after && after[e.paths(b, j)] == more[b][j].records
    {
      if b == id {
        assert e.paths(id, j) in PathsOf(e, id, outs, |outs|);
      } else {
        assert Slot(e, results, b, j);
      }
    }
    forall path | path in after ensures Owned(e, more, path) {
      if path in files {
        var b, j: nat :| Slot(e, results, b, j) && e.paths(b, j) == path;
        assert Slot(e, more, b, j);
      } else {
        var j: nat :| j < |outs| && !Fits(e, outs[j]) && e.paths(id, j) == path;
        assert Slot(e, more, id, j);
      }
    }
  }

  function Keep(e: Settings, w: World, id: string, outs: seq<Partition>): World {
    var (sts, files) := StoreAll(e, id, outs, w.files);
    World(w.results[id := sts], files)
  }

  /** Storing the outputs of a new node. */
  lemma KeepAgrees(e: Settings, w: World, results: Results, id: string, outs: seq<Partition>)
    requires Represents(e, w, results) && id !in results && Apart(e, results[id := outs])
    ensures Represents(e, Keep(e, w, id, outs), results[id := outs])
  {
    OutputsAreFresh(e, w.files, results, id, outs);
    StorePrefix(e, w.files, id, outs, |outs|);
    assert outs[..|outs|] == outs && Kept(e, id, outs)[..|outs|] == Kept(e, id, outs);
    AddedHolds(e, w.files, results, id, outs, StoreAll(e, id, outs, w.files).1);
  }

  // ----- whole runs

  ghost predicate DistinctStages(stages: seq<Stage>) {
    forall i, j :: 0 <= i < j < |stages| ==> stages[i].id != stages[j].id
  }

  /**
   In the run without spill files: after every stage, live partitions that do not fit have different paths, and no
   stage depends on the order in which partitions are loaded and stored.
   */
  ghost predicate Untangled(e: Settings, exec: Exec, empty: Partition, stages: seq<Stage>) {
    && Fits(e, empty)
    && (forall k :: 0 <= k <= |stages| ==> ApartAfter(e, RunStages(exec, empty, stages[..k])))
    && forall k :: 0 <= k < |stages| ==> OrderlyAt(e, exec, RunStages(exec, empty, stages[..k]), empty, stages[k])
  }

  ghost predicate OrderlyAt(e: Settings, exec: Exec, r: Result<Results, string>, empty: Partition, st: Stage) {
    r.Ok? ==> Orderly(e, exec, st, Inputs(empty, st.parents, r.value).0, InputPaths(e, st.parents, r.value))
  }

  ghost predicate ApartAfter(e: Settings, r: Result<Results, string>) {
    r.Ok? ==> Apart(e, r.value)
  }

  lemma {:induction false} GatherShrinks(parents: seq<string>, results: Results)
    ensures Gather(parents, results).1.Keys <= results.Keys
  {
    if parents == [] {
    } else {
      GatherShrinks(parents[..|parents| - 1], results);
    }
  }

  ghost function StageIds(stages: seq<Stage>): set<string> {
    set st | st in stages :: st.id
  }

  lemma {:induction false} ResultsAreStages(exec: Exec, empty: Partition, stages: seq<Stage>)
    ensures RunStages(exec, empty, stages).Ok? ==> RunStages(exec, empty, stages).value.Keys <= StageIds(stages)
  {
    if stages == [] {
    } else {
      var init, st := stages[..|stages| - 1], stages[|stages| - 1];
      assert stages == init + [st];
      ResultsAreStages(exec, empty, init);
      if RunStages(exec, empty, init).Ok? {
        GatherShrinks(st.parents, RunStages(exec, empty, init).value);
      }
    }
  }

  /** The run with spill files fails with the same error, or ends in a world that holds the same results. */
  ghost predicate Tracks(e: Settings, stored: Result<World, string>, plain: Result<Results, string>) {
    match plain
    case Err(x) => stored == Err(x)
    case Ok(results) => stored.Ok? && Represents(e, stored.value, results)
  }

  lemma StepTracks(e: Settings, exec: Exec, empty: Partition, w: World, results: Results, st: Stage)
    requires EngineLike(exec) && Fits(e, empty) && Represents(e, w, results) && Apart(e, results) && st.id !in results
    requires Orderly(e, exec, st, Inputs(empty, st.parents, results).0, InputPaths(e, st.parents, results))
    requires ApartAfter(e, Step(exec, empty, results, st))
    ensures Tracks(e, StoredStep(e, exec, empty, w, st), Step(exec, empty, results, st))
  {
    var (sts, rest) := StoredInputs(empty, st.parents, w.results);
    var (ins, left) := Inputs(empty, st.parents, results);
    InputsLoadable(e, empty, st.parents, w, results);
    ProduceAgrees(e, exec, st, sts, ins, InputPaths(e, st.parents, results), w.files);
    GatherShrinks(st.parents, results);
    var out := exec(st.id, st.operator, ins);
    if out.Ok? {
      KeepAgrees(e, World(rest, LoadAll(sts, w.files).value.1), left, st.id, out.value);
    }
  }

  lemma {:induction false} StagesTrack(e: Settings, exec: Exec, empty: Partition, stages: seq<Stage>, k: nat)
    requires EngineLike(exec) && DistinctStages(stages) && Untangled(e, exec, empty, stages) && k <= |stages|
    ensures Tracks(e, StoredStages(e, exec, empty, stages[..k]), RunStages(exec, empty, stages[..k]))
  {
    if k > 0 {
      var before, st := RunStages(exec, empty, stages[..k - 1]), stages[k - 1];
      assert stages[..k][..k - 1] == stages[..k - 1];
      StagesTrack(e, exec, empty, stages, k - 1);
      assert ApartAfter(e, before) && ApartAfter(e, RunStages(exec, empty, stages[..k])) &&
             OrderlyAt(e, exec, before, empty, st);
      if before.Ok? {
        ResultsAreStages(exec, empty, stages[..k - 1]);
        NewStage(stages, k - 1);
        StepTracks(e, exec, empty, StoredStages(e, exec, empty, stages[..k - 1]).value, before.value, st);
      }
    }
  }

  lemma NewStage(stages: seq<Stage>, k: nat)
    requires DistinctStages(stages) && k < |stages|
    ensures stages[k].id !in StageIds(stages[..k])
  {
    forall st | st in stages[..k] ensures st.id != stages[k].id {
      var i :| 0 <= i < k && stages[i] == st;
    }
  }

  /** In an untangled run spilling changes nothing. */
  lemma SpillingIsInvisible(e: Settings, exec: Exec, empty: Partition, stages: seq<Stage>, finalKey: string)
    requires EngineLike(exec) && DistinctStages(stages) && Untangled(e, exec, empty, stages)
    ensures StoredRun(e, exec, empty, stages, finalKey) == Run(exec, empty, stages, finalKey)
  {
    StagesTrack(e, exec, empty, stages, |stages|);
    assert stages[..|stages|] == stages;
    var plain := RunStages(exec, empty, stages);
    assert ApartAfter(e, RunStages(exec, empty, stages[..|stages|]));
    if plain.Ok? && finalKey in plain.value {
      LoadNode(e, StoredStages(e, exec, empty, stages).value, plain.value, finalKey);
    }
  }

  /** Every partition of every intermediate result fits. */
  ghost predicate AllFit(e: Settings, exec: Exec, empty: Partition, stages: seq<Stage>) {
    Fits(e, empty) && forall k :: 0 <= k <= |stages| ==> FitAfter(e, RunStages(exec, empty, stages[..k]))
  }

  ghost predicate FitAfter(e: Settings, r: Result<Results, string>) {
    r.Ok? ==> ResultsFit(e, r.value)
  }

  ghost predicate ResultsFit(e: Settings, results: Results) {
    forall id :: id in results ==> AllFitIn(e, results[id])
  }

  lemma {:induction false} GatherFits(e: Settings, parents: seq<string>, results: Results)
    requires ResultsFit(e, results)
    ensures AllFitIn(e, Gather(parents, results).0) && ResultsFit(e, Gather(parents, results).1)
  {
    if parents == [] {
    } else {
      GatherFits(e, parents[..|parents| - 1], results);
    }
  }

  lemma {:induction false} PathsMatch(e: Settings, parents: seq<string>, results: Results)
    ensures |PathsIn(e, parents, results)| == |Gather(parents, results).0|
  {
    if parents != [] {
      PathsMatch(e, parents[..|parents| - 1], results);
    }
  }

  lemma FittingIsOrderly(e: Settings, exec: Exec, empty: Partition, results: Results, st: Stage)
    requires Fits(e, empty) && ResultsFit(e, results)
    ensures Orderly(e, exec, st, Inputs(empty, st.parents, results).0, InputPaths(e, st.parents, results))
  {
    GatherFits(e, st.parents, results);
    PathsMatch(e, st.parents, results);
  }

  lemma FittingIsUntangled(e: Settings, exec: Exec, empty: Partition, stages: seq<Stage>)
    requires AllFit(e, exec, empty, stages)
    ensures Untangled(e, exec, empty, stages)
  {
    forall k | 0 <= k <= |stages| ensures ApartAfter(e, RunStages(exec, empty, stages[..k])) {
      assert FitAfter(e, RunStages(exec, empty, stages[..k]));
    }
    forall k | 0 <= k < |stages| ensures OrderlyAt(e, exec, RunStages(exec, empty, stages[..k]), empty, stages[k]) {
      var r := RunStages(exec, empty, stages[..k]);
      assert FitAfter(e, r);
      if r.Ok? {
        FittingIsOrderly(e, exec, empty, r.value, stages[k]);
      }
    }
  }

  // ----- tasks

  lemma ShuffleIdInjective(a: string, b: string)
    requires ShuffleId(a) == ShuffleId(b)
    ensures a == b
  {
    var s, n := ShuffleId(a), |"__shuffle_"|;
    assert s[n..|s| - 2] == a && s[n..|s| - 2] == b;
  }

  /** The ids of a planned list: declared ones and injected ones. */
  ghost predicate PlannedIds(nodes: seq<DagNode>, out: seq<DagNode>) {
    NoDup(Ids(out)) && forall id :: id in Ids(out) ==> id in Ids(nodes) || id in InjectedIds(nodes)
  }

  /** Node ids are distinct, and injection makes none of them up. */
  ghost predicate CleanNodes(nodes: seq<DagNode>) {
    NoDup(Ids(nodes)) && forall id :: id in Ids(nodes) ==> id !in InjectedIds(nodes)
  }

  lemma CleanInit(init: seq<DagNode>, n: DagNode)
    requires CleanNodes(init + [n])
    ensures CleanNodes(init) && n.id !in Ids(init) && n.id !in InjectedIds(init)
    ensures InjectedIds(init) <= InjectedIds(init + [n])
    ensures forall id :: id in Ids(init) ==> id in Ids(init + [n]) && id !in InjectedIds(init + [n])
  {
    var nodes := init + [n];
    assert Ids(nodes) == Ids(init) + [n.id];
    assert forall m :: m in init ==> m in nodes;
    assert InjectedIds(init) <= InjectedIds(nodes);
    forall id | id in Ids(init) ensures id in Ids(nodes) && id !in InjectedIds(init) {
      assert id in Ids(init) + [n.id];
    }
    assert n.id in Ids(nodes);
    NoDupParts(Ids(init), [n.id]);
  }

  lemma IdsLast(nodes: seq<DagNode>, n: DagNode)
    ensures Ids(nodes + [n]) == Ids(nodes) + [n.id]
  {
  }

  lemma {:induction false} InjectDistinct(nodes: seq<DagNode>, partitions: nat)
    requires CleanNodes(nodes)
    ensures PlannedIds(nodes, Inject(nodes, partitions))
  {
    if nodes == [] {
    } else {
      var init, n := nodes[..|nodes| - 1], nodes[|nodes| - 1];
      assert nodes == init + [n];
      CleanInit(init, n);
      InjectDistinct(init, partitions);
      var out := Inject(init, partitions);
      IdsLast(init, n);
      if n.operator.ReduceByKey? && !EndsInShuffle(out, n.operator.key) {
        var s := DagNode(ShuffleId(n.id), ShuffleByKey(n.operator.key, partitions));
        assert out + [s, n] == (out + [s]) + [n];
        ShufflePlanned(init, n, out, s);
        NodePlanned(init, n, out + [s]);
      } else {
        NodePlanned(init, n, out);
      }
    }
  }

  lemma ShufflePlanned(init: seq<DagNode>, n: DagNode, out: seq<DagNode>, s: DagNode)
    requires PlannedIds(init, out) && CleanNodes(init + [n]) && n.operator.ReduceByKey? && s.id == ShuffleId(n.id)
    ensures NoDup(Ids(out + [s])) && n.id !in Ids(out + [s])
    ensures forall id :: id in Ids(out + [s]) ==> id in Ids(init) || id in InjectedIds(init + [n])
  {
    CleanInit(init, n);
    NewShuffle(init, n);
    IdsLast(out, s);
    assert n in init + [n] && s.id in InjectedIds(init + [n]);
    IdsLast(init, n);
    NoDupAppend(Ids(out), s.id);
  }

  lemma NodePlanned(init: seq<DagNode>, n: DagNode, out: seq<DagNode>)
    requires NoDup(Ids(out)) && n.id !in Ids(out)
    requires forall id :: id in Ids(out) ==> id in Ids(init) || id in InjectedIds(init + [n])
    ensures PlannedIds(init + [n], out + [n])
  {
    IdsLast(out, n);
    IdsLast(init, n);
    NoDupAppend(Ids(out), n.id);
  }

  lemma NewShuffle(init: seq<DagNode>, n: DagNode)
    requires n.id !in Ids(init)
    ensures ShuffleId(n.id) !in InjectedIds(init)
  {
    forall m | m in init && m.operator.ReduceByKey? ensures ShuffleId(m.id) != ShuffleId(n.id) {
      var i :| 0 <= i < |init| && init[i] == m;
      assert Ids(init)[i] == m.id;
      if ShuffleId(m.id) == ShuffleId(n.id) {
        ShuffleIdInjective(m.id, n.id);
      }
    }
  }

  lemma PlanIsDistinct(spec: DagSpecification, order: seq<DagNode>)
    requires WellFormed(spec) && TopoOrder(spec, order) && CleanIds(spec)
    ensures NoDup(Ids(Inject(order, spec.partitions)))
  {
    OrderIsDistinct(spec, order);
    OrderIsHidden(spec, order);
    InjectDistinct(order, spec.partitions);
  }

  lemma TaskStagesDistinct(spec: DagSpecification, job: Uuid, tasks: seq<Task>, p: nat)
    requires WellFormed(spec) && CleanIds(spec) && PossibleTasks(spec, job, tasks) && p < |tasks|
    ensures DistinctStages(StagesOf(tasks[p]))
  {
    var order :| TasksFrom(spec, job, order, tasks);
    var plan := Inject(order, spec.partitions);
    assert tasks[p] == TaskFor(spec, job, plan, p);
    PossibleOrderIsTopological(spec, order);
    PlanIsDistinct(spec, order);
    TaskStages(spec, job, plan, p);
    StagesDistinct(spec.edges, plan);
  }

  lemma StagesDistinct(edges: seq<DagEdge>, nodes: seq<DagNode>)
    requires NoDup(Ids(nodes))
    ensures DistinctStages(StagesFor(edges, nodes))
  {
    forall i, j | 0 <= i < j < |nodes| ensures StagesFor(edges, nodes)[i].id != StagesFor(edges, nodes)[j].id {
      assert Ids(nodes)[i] != Ids(nodes)[j];
    }
  }

  /**
   Every task the master materialises computes the recursive meaning of the job's sink, spill files included, while
   its run is untangled.
   */
  lemma StoredTaskMeaning(e: Settings, spec: DagSpecification, exec: Exec, empty: Partition, job: Uuid,
                          tasks: seq<Task>, p: nat, sink: string)
    requires WellFormed(spec) && NoFanOut(spec.edges) && SingleSink(spec, sink) && CleanIds(spec)
    requires ShuffleTotal(exec, empty) && EngineLike(exec)
    requires PossibleTasks(spec, job, tasks) && p < |tasks|
    requires Untangled(e, exec, empty, StagesOf(tasks[p]))
    ensures var r := StoredRun(e, exec, empty, StagesOf(tasks[p]), FinalKey(tasks[p]));
            && (r.Ok? <==> Eval(spec, exec, empty, sink).Ok?)
            && (r.Ok? ==> r == Eval(spec, exec, empty, sink))
  {
    TaskStagesDistinct(spec, job, tasks, p);
    SpillingIsInvisible(e, exec, empty, StagesOf(tasks[p]), FinalKey(tasks[p]));
    TaskMeaning(spec, exec, empty, job, tasks, p, sink);
  }

  // ----- two large inputs on one path

  lemma StoreBig(e: Settings, id: string, p: Partition, files: Files)
    requires !Fits(e, p)
    ensures StoreAll(e, id, [p], files) ==
            ([Spilled(p.id, e.paths(id, 0))], files[e.paths(id, 0) := Held(files, e.paths(id, 0)) + p.records])
  {
    assert [p][..0] == [];
    assert StoreAll(e, id, [p][..0], files) == ([], files);
    assert [] + [Spilled(p.id, e.paths(id, 0))] == [Spilled(p.id, e.paths(id, 0))];
  }

  lemma LoadBig(id: nat, path: string, files: Files)
    ensures LoadAll([Spilled(id, path)], files) ==
            if path in files then Ok(([Partition(id, files[path])], files - {path})) else Err("opening spill file")
  {
    var sts := [Spilled(id, path)];
    assert sts[..0] == [];
    assert LoadAll(sts[..0], files) == Ok(([], files));
    assert path in files ==> [] + [Partition(id, files[path])] == [Partition(id, files[path])];
  }

  /** Two reads, each with one output, and a node fed by both that loads its inputs before it stores. */
  ghost predicate TwoSources(exec: Exec, empty: Partition, a: Stage, b: Stage, c: Stage, p: Partition, q: Partition) {
    && EngineLike(exec) && a.operator.Read? && b.operator.Read? && !c.operator.Read? && !RecordWise(c.operator)
    && a.id != b.id && c.id != a.id && c.id != b.id && a.parents == [] && b.parents == [] && c.parents == [a.id, b.id]
    && exec(a.id, a.operator, []) == Ok([p]) && exec(b.id, b.operator, []) == Ok([q])
  }

  /**
   When neither source's output fits and they share a path, the first one comes back with the records of both and
   takes the file away, so the second one cannot be loaded and the run fails.
   */
  lemma SharedPathFails(e: Settings, exec: Exec, empty: Partition, a: Stage, b: Stage, c: Stage, p: Partition,
                        q: Partition)
    requires TwoSources(exec, empty, a, b, c, p, q)
    requires !Fits(e, p) && !Fits(e, q) && e.paths(a.id, 0) == e.paths(b.id, 0)
    ensures StoredRun(e, exec, empty, [a, b, c], c.id).Err?
  {
    var path := e.paths(a.id, 0);
    var w1 := World(map[a.id := [Spilled(p.id, path)]], map[path := p.records]);
    var w2 := World(map[a.id := [Spilled(p.id, path)], b.id := [Spilled(q.id, path)]],
                    map[path := p.records + q.records]);
    StoreBig(e, a.id, p, map[]);
    assert [] + p.records == p.records;
    assert StoredStep(e, exec, empty, World(map[], map[]), a) == Ok(w1);
    StoreBig(e, b.id, q, w1.files);
    assert w1.files[path := p.records + q.records] == w2.files;
    assert w1.results[b.id := [Spilled(q.id, path)]] == w2.results;
    assert StoredStep(e, exec, empty, w1, b) == Ok(w2);
    CollectTwo(a.id, b.id, w2.results);
    assert [Spilled(p.id, path)] + [Spilled(q.id, path)] == [Spilled(p.id, path), Spilled(q.id, path)];
    SecondLoadFails(p.id, q.id, path, w2.files);
    StagesOfThree(e, exec, empty, a, b, c, w1, w2);
  }

  /** The outcome of loading a stored partition, as its records. */
  function Loaded(st: Stored, files: Files): Result<seq<Value>, string> {
    match Load(st, files)
    case Err(x) => Err(x)
    case Ok((p, _)) => Ok(p.records)
  }

  /** The files after the load. */
  function AfterLoad(st: Stored, files: Files): Files {
    if Load(st, files).Ok? then Load(st, files).value.1 else files
  }

  /** Storing two partitions on one path and loading them does here what it does with caches over files of bytes. */
  method StoreLikeCaches(disk: Sp.Disk, e: Settings, path: string, left: seq<Value>, right: seq<Value>)
    returns (a: Result<seq<Value>, string>, b: Result<seq<Value>, string>)
    requires Sp.Good(e.codec) && path !in disk.files
    modifies disk
    ensures var (s, one) := Store(e, path, Partition(0, left), map[]);
            var (t, two) := Store(e, path, Partition(0, right), one);
            && a == Loaded(s, two)
            && (b.Ok? <==> Loaded(t, AfterLoad(s, two)).Ok?) && (b.Ok? ==> b == Loaded(t, AfterLoad(s, two)))
  {
    a, b := Sp.StoreTwoOnOnePath(disk, e.codec, e.limit, path, left, right);
    assert [] + left == left && [] + right == right;
  }

  /** The run without spill files. */
  lemma PlainTwoSources(exec: Exec, empty: Partition, a: Stage, b: Stage, c: Stage, p: Partition, q: Partition,
                        outs: seq<Partition>)
    requires TwoSources(exec, empty, a, b, c, p, q) && exec(c.id, c.operator, [p, q]) == Ok(outs)
    ensures RunStages(exec, empty, []) == Ok(map[])
    ensures RunStages(exec, empty, [a]) == Ok(map[a.id := [p]])
    ensures RunStages(exec, empty, [a, b]) == Ok(map[a.id := [p], b.id := [q]])
    ensures RunStages(exec, empty, [a, b, c]) == Ok(map[c.id := outs])
  {
    assert [a, b, c][..2] == [a, b] && [a, b][..1] == [a] && [a][..0] == [];
    assert RunStages(exec, empty, [a][..0]) == Ok(map[]);
    assert RunStages(exec, empty, [a]) == Ok(map[a.id := [p]]);
    var two := map[a.id := [p], b.id := [q]];
    assert map[a.id := [p]][b.id := [q]] == two;
    assert RunStages(exec, empty, [a, b]) == Ok(two);
    GatherBoth(a.id, b.id, two);
    assert [p] + [q] == [p, q];
    assert (two - {a.id} - {b.id})[c.id := outs] == map[c.id := outs];
  }

  lemma OneLargeIsApart(e: Settings, exec: Exec, empty: Partition, a: Stage, b: Stage, c: Stage, p: Partition,
                        q: Partition, outs: seq<Partition>)
    requires TwoSources(exec, empty, a, b, c, p, q) && exec(c.id, c.operator, [p, q]) == Ok(outs)
    requires Fits(e, empty) && (Fits(e, p) || Fits(e, q)) && forall i :: 0 <= i < |outs| ==> Fits(e, outs[i])
    ensures Untangled(e, exec, empty, [a, b, c])
  {
    PlainTwoSources(exec, empty, a, b, c, p, q, outs);
    var stages := [a, b, c];
    forall k | 0 <= k <= 3 ensures ApartAfter(e, RunStages(exec, empty, stages[..k])) {
      assert stages[..k] == if k == 0 then [] else if k == 1 then [a] else if k == 2 then [a, b] else stages;
    }
    forall k | 0 <= k < 3 ensures OrderlyAt(e, exec, RunStages(exec, empty, stages[..k]), empty, stages[k]) {
      assert stages[..k] == if k == 0 then [] else if k == 1 then [a] else [a, b];
      PathsMatch(e, stages[k].parents, RunStages(exec, empty, stages[..k]).value);
    }
  }

  /**
   Two sources that share a spill path in front of a node whose output fits: the run with spill files is the run
   without them exactly when the output of one source fits in memory.
   */
  lemma SharedPathIff(e: Settings, exec: Exec, empty: Partition, a: Stage, b: Stage, c: Stage, p: Partition,
                      q: Partition, outs: seq<Partition>)
    requires TwoSources(exec, empty, a, b, c, p, q) && exec(c.id, c.operator, [p, q]) == Ok(outs)
    requires Fits(e, empty) && e.paths(a.id, 0) == e.paths(b.id, 0) && forall i :: 0 <= i < |outs| ==> Fits(e, outs[i])
    ensures Run(exec, empty, [a, b, c], c.id) == Ok(outs)
    ensures StoredRun(e, exec, empty, [a, b, c], c.id) == Run(exec, empty, [a, b, c], c.id) <==>
            Fits(e, p) || Fits(e, q)
  {
    PlainTwoSources(exec, empty, a, b, c, p, q, outs);
    if Fits(e, p) || Fits(e, q) {
      OneLargeIsApart(e, exec, empty, a, b, c, p, q, outs);
      SpillingIsInvisible(e, exec, empty, [a, b, c], c.id);
    } else {
      SharedPathFails(e, exec, empty, a, b, c, p, q);
    }
  }

  lemma SecondLoadFails(i: nat, j: nat, path: string, files: Files)
    requires path in files
    ensures LoadAll([Spilled(i, path), Spilled(j, path)], files).Err?
  {
    LoadBig(i, path, files);
    LoadConcat([Spilled(i, path)], [Spilled(j, path)], files);
    LoadBig(j, path, files - {path});
    assert [Spilled(i, path)] + [Spilled(j, path)] == [Spilled(i, path), Spilled(j, path)];
  }

  lemma CollectTwo(x: string, y: string, results: map<string, seq<Stored>>)
    requires x != y && x in results && y in results
    ensures Collect([x, y], results).0 == results[x] + results[y]
  {
    assert [x, y][..1] == [x] && [x][..0] == [];
    assert Collect([x][..0], results) == ([], results);
    assert [] + results[x] == results[x];
  }

  lemma StagesOfThree(e: Settings, exec: Exec, empty: Partition, a: Stage, b: Stage, c: Stage, w1: World, w2: World)
    requires StoredStep(e, exec, empty, World(map[], map[]), a) == Ok(w1) && StoredStep(e, exec, empty, w1, b) == Ok(w2)
    ensures StoredStages(e, exec, empty, [a, b, c]) == StoredStep(e, exec, empty, w2, c)
  {
    assert [a, b, c][..2] == [a, b] && [a, b][..1] == [a] && [a][..0] == [];
    assert StoredStages(e, exec, empty, [a][..0]) == Ok(World(map[], map[]));
    assert StoredStages(e, exec, empty, [a]) == Ok(w1);
    assert StoredStages(e, exec, empty, [a, b]) == Ok(w2);
  }
}
