/** A run with spill files completes exactly when it is untangled, and then it is right. */
module Completion {
  import opened Prelude
  import opened Dag
  import opened Ordering
  import opened Planner
  import opened Values
  import opened Pipeline
  import opened Execution
  import opened Transforms
  import opened Residency

  // ----- live entries and files of a path

  /** How many stored partitions lie at `path`. */
  function Count(sts: seq<Stored>, path: string): nat {
    if sts == [] then 0
    else
      var s := sts[|sts| - 1];
      Count(sts[..|sts| - 1], path) + (if s.Spilled? && s.path == path then 1 else 0)
  }

  function CountAt(results: map<string, seq<Stored>>, id: string, path: string): nat {
    if id in results then Count(results[id], path) else 0
  }

  /** The same over the results of `ids`. */
  function Total(ids: seq<string>, results: map<string, seq<Stored>>, path: string): nat {
    if ids == [] then 0 else Total(ids[..|ids| - 1], results, path) + CountAt(results, ids[|ids| - 1], path)
  }

  function Has(files: Files, path: string): nat {
    if path in files then 1 else 0
  }

  /** Live entries of a path beyond its file. More than none means that some of them can never be loaded. */
  function Surplus(ids: seq<string>, w: World, path: string): int {
    Total(ids, w.results, path) - Has(w.files, path)
  }

  lemma {:induction false} CountConcat(a: seq<Stored>, b: seq<Stored>, path: string)
    ensures Count(a + b, path) == Count(a, path) + Count(b, path)
  {
    if b == [] {
      assert a + b == a;
    } else {
      assert (a + b)[..|a + b| - 1] == a + b[..|b| - 1];
      CountConcat(a, b[..|b| - 1], path);
    }
  }

  lemma CountNext(sts: seq<Stored>, k: nat, path: string)
    requires k < |sts|
    ensures Count(sts[..k + 1], path) ==
            Count(sts[..k], path) + (if sts[k].Spilled? && sts[k].path == path then 1 else 0)
  {
    assert sts[..k + 1][..k] == sts[..k];
  }

  lemma {:induction false} CountOne(sts: seq<Stored>, i: nat, path: string)
    requires i < |sts| && sts[i].Spilled? && sts[i].path == path
    ensures Count(sts, path) >= 1
  {
    if i < |sts| - 1 {
      CountOne(sts[..|sts| - 1], i, path);
    }
  }

  lemma {:induction false} CountTwo(sts: seq<Stored>, i: nat, j: nat, path: string)
    requires i < j < |sts| && sts[i].Spilled? && sts[i].path == path && sts[j].Spilled? && sts[j].path == path
    ensures Count(sts, path) >= 2
  {
    if j < |sts| - 1 {
      CountTwo(sts[..|sts| - 1], i, j, path);
    } else {
      CountOne(sts[..|sts| - 1], i, path);
    }
  }

  lemma {:induction false} CountNone(sts: seq<Stored>, path: string)
    requires forall i :: 0 <= i < |sts| ==> sts[i].Resident?
    ensures Count(sts, path) == 0
  {
    if sts != [] {
      CountNone(sts[..|sts| - 1], path);
    }
  }

  /** The results agree except at `id`. */
  ghost predicate AgreeBut(a: map<string, seq<Stored>>, b: map<string, seq<Stored>>, id: string) {
    forall x :: x != id ==> (x in a <==> x in b) && (x in a && x in b ==> a[x] == b[x])
  }

  lemma {:induction false} TotalChanges(ids: seq<string>, a: map<string, seq<Stored>>, b: map<string, seq<Stored>>,
                                        id: string, path: string)
    requires NoDup(ids) && AgreeBut(a, b, id)
    ensures id in ids ==> Total(ids, a, path) - CountAt(a, id, path) == Total(ids, b, path) - CountAt(b, id, path)
    ensures id !in ids ==> Total(ids, a, path) == Total(ids, b, path)
  {
    if ids != [] {
      var init, last := ids[..|ids| - 1], ids[|ids| - 1];
      assert ids == init + [last];
      TotalChanges(init, a, b, id, path);
    }
  }

  lemma {:induction false} TotalIn(ids: seq<string>, results: map<string, seq<Stored>>, id: string, path: string)
    requires id in ids
    ensures Total(ids, results, path) >= CountAt(results, id, path)
  {
    var init, last := ids[..|ids| - 1], ids[|ids| - 1];
    assert ids == init + [last];
    if id != last {
      TotalIn(init, results, id, path);
    }
  }

  lemma {:induction false} TotalOfTwo(ids: seq<string>, results: map<string, seq<Stored>>, a: string, b: string,
                                      path: string)
    requires a in ids && b in ids && a != b
    ensures Total(ids, results, path) >= CountAt(results, a, path) + CountAt(results, b, path)
  {
    var init, last := ids[..|ids| - 1], ids[|ids| - 1];
    assert ids == init + [last];
    if last == a {
      TotalIn(init, results, b, path);
    } else if last == b {
      TotalIn(init, results, a, path);
    } else {
      TotalOfTwo(init, results, a, b, path);
    }
  }

  lemma {:induction false} TotalOnly(ids: seq<string>, results: map<string, seq<Stored>>, id: string, path: string)
    requires NoDup(ids) && forall x :: x in ids && x != id ==> CountAt(results, x, path) == 0
    ensures Total(ids, results, path) <= CountAt(results, id, path)
  {
    if ids != [] {
      var init, last := ids[..|ids| - 1], ids[|ids| - 1];
      assert ids == init + [last];
      if last == id {
        TotalNone(init, results, path);
      } else {
        TotalOnly(init, results, id, path);
      }
    }
  }

  lemma {:induction false} TotalNone(ids: seq<string>, results: map<string, seq<Stored>>, path: string)
    requires forall x :: x in ids ==> CountAt(results, x, path) == 0
    ensures Total(ids, results, path) == 0
  {
    if ids != [] {
      var init, last := ids[..|ids| - 1], ids[|ids| - 1];
      assert ids == init + [last];
      TotalNone(init, results, path);
    }
  }

  // ----- a surplus never goes away

  /** Collecting moves entries from the map to the stage. */
  lemma {:induction false} CollectCounts(ids: seq<string>, parents: seq<string>, results: map<string, seq<Stored>>,
                                         path: string)
    requires NoDup(ids) && forall id :: id in results ==> id in ids
    ensures var (sts, rest) := Collect(parents, results);
            && Count(sts, path) + Total(ids, rest, path) == Total(ids, results, path)
            && forall id :: id in rest ==> id in results
  {
    if parents != [] {
      var init, p := parents[..|parents| - 1], parents[|parents| - 1];
      CollectCounts(ids, init, results, path);
      var (sts, rest) := Collect(init, results);
      if p in rest {
        CountConcat(sts, rest[p], path);
        TotalChanges(ids, rest, rest - {p}, p, path);
      }
    }
  }

  lemma LoadCount(s: Stored, files: Files, path: string)
    requires Load(s, files).Ok?
    ensures Has(files, path) == Count([s], path) + Has(Load(s, files).value.1, path)
  {
    assert [s][..0] == [];
  }

  /** Loading uses up one file for every entry. */
  lemma {:induction false} LoadCounts(sts: seq<Stored>, files: Files, path: string)
    requires LoadAll(sts, files).Ok?
    ensures Has(files, path) == Count(sts, path) + Has(LoadAll(sts, files).value.1, path)
  {
    if sts != [] {
      var last := |sts| - 1;
      LoadCounts(sts[..last], files, path);
      LoadCount(sts[last], LoadAll(sts[..last], files).value.1, path);
      assert [sts[last]][..0] == [];
    }
  }

  /** Storing adds at least as many entries as files. */
  lemma {:induction false} StoreCounts(e: Settings, id: string, outs: seq<Partition>, files: Files, path: string)
    ensures var (sts, after) := StoreAll(e, id, outs, files);
            Count(sts, path) + Has(files, path) >= Has(after, path)
  {
    if outs != [] {
      var last := |outs| - 1;
      StoreCounts(e, id, outs[..last], files, path);
      var (sts, before) := StoreAll(e, id, outs[..last], files);
      var (st, after) := Store(e, e.paths(id, last), outs[last], before);
      CountConcat(sts, [st], path);
      assert [st][..0] == [];
    }
  }

  lemma TransformSplit(e: Settings, exec: Exec, st: Stage, sts: seq<Stored>, files: Files, k: nat)
    requires k < |sts| && Transform(e, exec, st, sts[..k + 1], files).Ok?
    ensures Transform(e, exec, st, sts[..k], files).Ok?
  {
    assert sts[..k + 1][..k] == sts[..k];
  }

  lemma {:induction false} TransformOk(e: Settings, exec: Exec, st: Stage, sts: seq<Stored>, files: Files, k: nat)
    requires k <= |sts| && Transform(e, exec, st, sts, files).Ok?
    ensures Transform(e, exec, st, sts[..k], files).Ok?
    decreases |sts| - k
  {
    if k == |sts| {
      assert sts[..k] == sts;
    } else {
      TransformOk(e, exec, st, sts, files, k + 1);
      TransformSplit(e, exec, st, sts, files, k);
    }
  }

  /** Entries beyond files after `k` partitions, those still to be loaded left aside. */
  function Excess(e: Settings, exec: Exec, st: Stage, sts: seq<Stored>, files: Files, k: nat, path: string): int
    requires k <= |sts| && Transform(e, exec, st, sts[..k], files).Ok?
  {
    var (outs, after) := Transform(e, exec, st, sts[..k], files).value;
    Count(outs, path) - Has(after, path) - Count(sts[..k], path)
  }

  lemma ExcessNext(e: Settings, exec: Exec, st: Stage, sts: seq<Stored>, files: Files, k: nat, path: string)
    requires k < |sts| && Transform(e, exec, st, sts[..k + 1], files).Ok?
    ensures Transform(e, exec, st, sts[..k], files).Ok?
    ensures Excess(e, exec, st, sts, files, k, path) <= Excess(e, exec, st, sts, files, k + 1, path)
  {
    TransformSplit(e, exec, st, sts, files, k);
    assert sts[..k + 1][..k] == sts[..k] && sts[..k + 1][k] == sts[k];
    var (outs, f1) := Transform(e, exec, st, sts[..k], files).value;
    LoadCount(sts[k], f1, path);
    CountNext(sts, k, path);
    assert [sts[k]][..0] == [];
    var (p, f2) := Load(sts[k], f1).value;
    var made := exec(st.id, st.operator, [p]).value;
    if made != [] {
      var (out, f3) := Store(e, e.paths(st.id, |outs|), made[0], f2);
      CountConcat(outs, [out], path);
      assert [out][..0] == [];
    }
  }

  lemma {:induction false} ExcessGrows(e: Settings, exec: Exec, st: Stage, sts: seq<Stored>, files: Files, k: nat,
                                       path: string)
    requires k <= |sts| && Transform(e, exec, st, sts, files).Ok?
    ensures Transform(e, exec, st, sts[..k], files).Ok? && sts[..|sts|] == sts
    ensures Excess(e, exec, st, sts, files, k, path) <= Excess(e, exec, st, sts, files, |sts|, path)
    decreases |sts| - k
  {
    assert sts[..|sts|] == sts;
    TransformOk(e, exec, st, sts, files, k);
    if k < |sts| {
      ExcessGrows(e, exec, st, sts, files, k + 1, path);
      ExcessNext(e, exec, st, sts, files, k, path);
    }
  }

  /** Every operator adds at least as many entries as it changes files, beyond those of its inputs. */
  lemma ProduceCounts(e: Settings, exec: Exec, st: Stage, sts: seq<Stored>, files: Files, path: string)
    requires Produce(e, exec, st, sts, files).Ok?
    requires st.operator.Read? ==> forall i :: 0 <= i < |sts| ==> sts[i].Resident?
    ensures var (outs, after) := Produce(e, exec, st, sts, files).value;
            Count(outs, path) - Has(after, path) >= Count(sts, path) - Has(files, path)
  {
    if RecordWise(st.operator) {
      ExcessGrows(e, exec, st, sts, files, 0, path);
      assert sts[..0] == [];
    } else if st.operator.Read? {
      CountNone(sts, path);
      StoreCounts(e, st.id, exec(st.id, st.operator, []).value, files, path);
    } else {
      LoadCounts(sts, files, path);
      var (ins, f1) := LoadAll(sts, files).value;
      StoreCounts(e, st.id, exec(st.id, st.operator, ins).value, f1, path);
    }
  }

  /** A stage of the list whose id has not run yet, and no read behind an edge. */
  ghost predicate NewIn(ids: seq<string>, results: map<string, seq<Stored>>, st: Stage) {
    && NoDup(ids) && st.id in ids && st.id !in results && (forall id :: id in results ==> id in ids)
    && (st.operator.Read? ==> st.parents == [])
  }

  /** The surplus of a path never shrinks. */
  lemma StepSurplus(e: Settings, exec: Exec, empty: Partition, ids: seq<string>, w: World, st: Stage, path: string)
    requires NewIn(ids, w.results, st) && StoredStep(e, exec, empty, w, st).Ok?
    ensures Surplus(ids, w, path) <= Surplus(ids, StoredStep(e, exec, empty, w, st).value, path)
    ensures forall id :: id in StoredStep(e, exec, empty, w, st).value.results ==> id in ids
  {
    var (sts, rest) := StoredInputs(empty, st.parents, w.results);
    if st.parents == [] {
      CountNone(sts, path);
    } else {
      CollectCounts(ids, st.parents, w.results, path);
    }
    ProduceCounts(e, exec, st, sts, w.files, path);
    var (outs, files) := Produce(e, exec, st, sts, w.files).value;
    TotalChanges(ids, rest, rest[st.id := outs], st.id, path);
  }

  // ----- without a surplus, stages are orderly and partitions apart

  /** An output stored where an input still lies leaves one entry too many. */
  lemma ConflictShows(e: Settings, exec: Exec, st: Stage, sts: seq<Stored>, files: Files, k: nat, outs: seq<Partition>,
                      i: nat, path: string)
    requires Transform(e, exec, st, sts, files).Ok? && k < |sts| && sts[k].Spilled? && sts[k].path == path
    requires Transform(e, exec, st, sts[..k], files).Ok? &&
             Transform(e, exec, st, sts[..k], files).value.0 == Kept(e, st.id, outs)
    requires i < |outs| && !Fits(e, outs[i]) && e.paths(st.id, i) == path
    ensures var (made, after) := Transform(e, exec, st, sts, files).value;
            Count(made, path) - Has(after, path) >= 1
  {
    CountOne(Kept(e, st.id, outs), i, path);
    ExcessGrows(e, exec, st, sts, files, k, path);
    assert sts == sts[..k] + sts[k..];
    CountConcat(sts[..k], sts[k..], path);
    CountOne(sts[k..], 0, path);
  }

  /** Up to input `k` the transformation has gone as it would in memory, with outputs stored away from later inputs. */
  lemma {:induction false} TransformClear(e: Settings, exec: Exec, st: Stage, sts: seq<Stored>, ins: seq<Partition>,
                                          files: Files, k: nat)
    requires EngineLike(exec) && RecordWise(st.operator) && k <= |sts| == |ins|
    requires LoadAll(sts, files).Ok? && LoadAll(sts, files).value.0 == ins
    requires Transform(e, exec, st, sts, files).Ok?
    requires forall path :: NoExcess(Transform(e, exec, st, sts, files).value, path)
    ensures forall j :: 0 <= j < k ==> Clear(e, exec, st, ins, sts, j)
  {
    if k > 0 {
      var j := k - 1;
      TransformClear(e, exec, st, sts, ins, files, j);
      TransformPrefix(e, exec, st, sts, ins, files, j);
      TransformOk(e, exec, st, sts, files, j);
      var made := exec(st.id, st.operator, ins[..j]);
      if made.Ok? && sts[j].Spilled? {
        StoredIsKept(e, st.id, made.value, LoadAll(sts[..j], files).value.1);
        forall i: nat | i < |made.value| && !Fits(e, made.value[i]) ensures e.paths(st.id, i) != sts[j].path {
          if e.paths(st.id, i) == sts[j].path {
            assert NoExcess(Transform(e, exec, st, sts, files).value, sts[j].path);
            ConflictShows(e, exec, st, sts, files, j, made.value, i, sts[j].path);
          }
        }
      }
    }
  }

  ghost predicate NoExcess(r: (seq<Stored>, Files), path: string) {
    Count(r.0, path) <= Has(r.1, path)
  }

  /** Two live spilled partitions on one path are two entries. */
  lemma TwoSlots(e: Settings, ids: seq<string>, results: Results, stored: map<string, seq<Stored>>, a: string, i: nat,
                 b: string, j: nat)
    requires (forall id :: id in results ==> id in ids && id in stored && stored[id] == Kept(e, id, results[id]))
    requires Slot(e, results, a, i) && Slot(e, results, b, j) && e.paths(a, i) == e.paths(b, j) && (a != b || i != j)
    ensures Total(ids, stored, e.paths(a, i)) >= 2
  {
    var path := e.paths(a, i);
    if a == b {
      TotalIn(ids, stored, a, path);
      CountTwo(stored[a], if i < j then i else j, if i < j then j else i, path);
    } else {
      TotalOfTwo(ids, stored, a, b, path);
      CountOne(stored[a], i, path);
      CountOne(stored[b], j, path);
    }
  }

  lemma NoSurplusIsApart(e: Settings, ids: seq<string>, results: Results, w: World)
    requires forall id :: id in results ==> id in ids && id in w.results && w.results[id] == Kept(e, id, results[id])
    requires forall path :: Surplus(ids, w, path) <= 0
    ensures Apart(e, results)
  {
    forall a, i: nat, b, j: nat | Slot(e, results, a, i) && Slot(e, results, b, j) && e.paths(a, i) == e.paths(b, j)
      ensures a == b && i == j
    {
      if a != b || i != j {
        assert Surplus(ids, w, e.paths(a, i)) <= 0;
        TwoSlots(e, ids, results, w.results, a, i, b, j);
      }
    }
  }

  /** A stage that has run without a surplus was orderly. */
  lemma OrderlyStep(e: Settings, exec: Exec, st: Stage, sts: seq<Stored>, ins: seq<Partition>, paths: seq<string>,
                    files: Files)
    requires EngineLike(exec) && StoredAs(e, sts, ins, paths) && (st.operator.Read? ==> AllFitIn(e, ins))
    requires LoadAll(sts, files).Ok? && LoadAll(sts, files).value.0 == ins
    requires Produce(e, exec, st, sts, files).Ok? &&
             forall path :: NoExcess(Produce(e, exec, st, sts, files).value, path)
    ensures Orderly(e, exec, st, ins, paths)
  {
    if RecordWise(st.operator) {
      assert sts == AsStored(e, ins, paths);
      TransformClear(e, exec, st, sts, ins, files, |sts|);
    }
  }

  /** What a stage stores does not exceed its files when the world after it has no surplus. */
  lemma NoExcessOf(ids: seq<string>, rest: map<string, seq<Stored>>, id: string, outs: seq<Stored>, files: Files,
                   path: string)
    requires id in ids && Surplus(ids, World(rest[id := outs], files), path) <= 0
    ensures NoExcess((outs, files), path)
  {
    TotalIn(ids, rest[id := outs], id, path);
  }

  /** One stage: without a surplus afterwards, it did what it would have done without spill files. */
  lemma CleanStep(e: Settings, exec: Exec, empty: Partition, ids: seq<string>, w: World, results: Results, st: Stage)
    requires EngineLike(exec) && Fits(e, empty) && Represents(e, w, results) && Apart(e, results) &&
             NewIn(ids, w.results, st)
    requires StoredStep(e, exec, empty, w, st).Ok?
    requires forall path :: Surplus(ids, StoredStep(e, exec, empty, w, st).value, path) <= 0
    ensures Orderly(e, exec, st, Inputs(empty, st.parents, results).0, InputPaths(e, st.parents, results))
    ensures Step(exec, empty, results, st).Ok? && Apart(e, Step(exec, empty, results, st).value)
  {
    var (sts, rest) := StoredInputs(empty, st.parents, w.results);
    var (ins, left) := Inputs(empty, st.parents, results);
    var paths := InputPaths(e, st.parents, results);
    InputsLoadable(e, empty, st.parents, w, results);
    var (outs, files) := Produce(e, exec, st, sts, w.files).value;
    forall path ensures NoExcess((outs, files), path) {
      assert Surplus(ids, StoredStep(e, exec, empty, w, st).value, path) <= 0;
      NoExcessOf(ids, rest, st.id, outs, files, path);
    }
    OrderlyStep(e, exec, st, sts, ins, paths, w.files);
    ProduceAgrees(e, exec, st, sts, ins, paths, w.files);
    StepIsApart(e, exec, empty, ids, w, results, st, left);
  }

  lemma StepIsApart(e: Settings, exec: Exec, empty: Partition, ids: seq<string>, w: World, results: Results, st: Stage,
                    left: Results)
    requires Represents(e, w, results) && NewIn(ids, w.results, st) && left == Inputs(empty, st.parents, results).1
    requires var rest := StoredInputs(empty, st.parents, w.results).1;
             rest.Keys == left.Keys && forall id :: id in left ==> rest[id] == Kept(e, id, left[id])
    requires var (ins, _) := Inputs(empty, st.parents, results);
             var (sts, _) := StoredInputs(empty, st.parents, w.results);
             && LoadAll(sts, w.files).Ok?
             && Produce(e, exec, st, sts, w.files) ==
                StoreMade(e, st.id, exec(st.id, st.operator, ins), LoadAll(sts, w.files).value.1)
    requires StoredStep(e, exec, empty, w, st).Ok?
    requires forall path :: Surplus(ids, StoredStep(e, exec, empty, w, st).value, path) <= 0
    ensures Step(exec, empty, results, st).Ok? && Apart(e, Step(exec, empty, results, st).value)
  {
    var w' := StoredStep(e, exec, empty, w, st).value;
    var (sts, rest) := StoredInputs(empty, st.parents, w.results);
    var outs := exec(st.id, st.operator, Inputs(empty, st.parents, results).0).value;
    StoredIsKept(e, st.id, outs, LoadAll(sts, w.files).value.1);
    GatherShrinks(st.parents, results);
    NoSurplusIsApart(e, ids, left[st.id := outs], w');
  }

  // ----- whole runs

  function IdsOf(stages: seq<Stage>): (r: seq<string>)
    ensures |r| == |stages| && forall i :: 0 <= i < |r| ==> r[i] == stages[i].id
  {
    seq(|stages|, i requires 0 <= i < |stages| => stages[i].id)
  }

  /** No read has a parent. */
  ghost predicate ReadsAlone(stages: seq<Stage>) {
    forall i :: 0 <= i < |stages| && stages[i].operator.Read? ==> stages[i].parents == []
  }

  lemma {:induction false} CollectKeeps(parents: seq<string>, results: map<string, seq<Stored>>)
    ensures var rest := Collect(parents, results).1;
            && (forall id :: id in rest ==> id in results && rest[id] == results[id])
            && forall p :: p in parents ==> p !in rest
  {
    if parents != [] {
      var init, p := parents[..|parents| - 1], parents[|parents| - 1];
      assert parents == init + [p];
      CollectKeeps(init, results);
    }
  }

  /** What is left after `k` stages: results of stages no later one has taken. */
  ghost predicate Leftover(e: Settings, exec: Exec, empty: Partition, stages: seq<Stage>, k: nat, w: World)
    requires k <= |stages|
  {
    forall id :: id in w.results ==> HasWaited(e, exec, empty, stages, k, w, id)
  }

  ghost predicate HasWaited(e: Settings, exec: Exec, empty: Partition, stages: seq<Stage>, k: nat, w: World, id: string)
    requires k <= |stages| && id in w.results
  {
    exists i :: 0 <= i < k && Waits(e, exec, empty, stages, k, w, id, i)
  }

  ghost predicate Waits(e: Settings, exec: Exec, empty: Partition, stages: seq<Stage>, k: nat, w: World, id: string,
                        i: int)
    requires 0 <= i < k <= |stages| && id in w.results
  {
    && stages[i].id == id
    && (forall j :: i < j < k ==> id !in stages[j].parents)
    && (Harmless(e, exec, empty, stages[i]) ==> forall m :: 0 <= m < |w.results[id]| ==> w.results[id][m].Resident?)
  }

  /** A shuffle of the empty partition whose outputs fit. */
  ghost predicate Harmless(e: Settings, exec: Exec, empty: Partition, st: Stage) {
    var made := exec(st.id, st.operator, [empty]);
    st.parents == [] && st.operator.ShuffleByKey? && (made.Ok? ==> AllFitIn(e, made.value))
  }

  lemma HarmlessStores(e: Settings, exec: Exec, empty: Partition, w: World, st: Stage)
    requires Harmless(e, exec, empty, st) && StoredStep(e, exec, empty, w, st).Ok?
    ensures var out := StoredStep(e, exec, empty, w, st).value.results[st.id];
            forall m :: 0 <= m < |out| ==> out[m].Resident?
  {
    LoadResidents([Resident(empty)], [empty], w.files);
    StoredIsKept(e, st.id, exec(st.id, st.operator, [empty]).value, w.files);
  }

  lemma LeftoverNext(e: Settings, exec: Exec, empty: Partition, stages: seq<Stage>, k: nat, w: World)
    requires k < |stages| && Leftover(e, exec, empty, stages, k, w) && StoredStep(e, exec, empty, w, stages[k]).Ok?
    ensures Leftover(e, exec, empty, stages, k + 1, StoredStep(e, exec, empty, w, stages[k]).value)
  {
    var st, w' := stages[k], StoredStep(e, exec, empty, w, stages[k]).value;
    CollectKeeps(st.parents, w.results);
    forall id | id in w'.results ensures HasWaited(e, exec, empty, stages, k + 1, w', id) {
      if id == st.id {
        if Harmless(e, exec, empty, st) {
          HarmlessStores(e, exec, empty, w, st);
        }
        assert Waits(e, exec, empty, stages, k + 1, w', id, k);
      } else {
        var i :| 0 <= i < k && Waits(e, exec, empty, stages, k, w, id, i);
        assert Waits(e, exec, empty, stages, k + 1, w', id, i);
      }
    }
  }

  lemma {:induction false} LeftoverAfter(e: Settings, exec: Exec, empty: Partition, stages: seq<Stage>, k: nat)
    requires k <= |stages| && StoredStages(e, exec, empty, stages[..k]).Ok?
    ensures Leftover(e, exec, empty, stages, k, StoredStages(e, exec, empty, stages[..k]).value)
  {
    if k > 0 {
      assert stages[..k][..k - 1] == stages[..k - 1];
      LeftoverAfter(e, exec, empty, stages, k - 1);
      LeftoverNext(e, exec, empty, stages, k - 1, StoredStages(e, exec, empty, stages[..k - 1]).value);
    }
  }

  /** The next stage is new to the results. */
  lemma NextIsNew(e: Settings, exec: Exec, empty: Partition, stages: seq<Stage>, k: nat)
    requires k < |stages| && DistinctStages(stages) && ReadsAlone(stages) &&
             StoredStages(e, exec, empty, stages[..k]).Ok?
    ensures NewIn(IdsOf(stages), StoredStages(e, exec, empty, stages[..k]).value.results, stages[k])
  {
    var w := StoredStages(e, exec, empty, stages[..k]).value;
    LeftoverAfter(e, exec, empty, stages, k);
    assert IdsOf(stages)[k] == stages[k].id;
    forall id | id in w.results ensures id in IdsOf(stages) && id != stages[k].id {
      var i :| 0 <= i < k && Waits(e, exec, empty, stages, k, w, id, i);
      assert IdsOf(stages)[i] == id;
    }
  }

  /** A surplus that appears during a run is there at its end. */
  lemma {:induction false} SurplusStays(e: Settings, exec: Exec, empty: Partition, stages: seq<Stage>, k: nat,
                                        path: string)
    requires DistinctStages(stages) && ReadsAlone(stages) && k <= |stages| && StoredStages(e, exec, empty, stages).Ok?
    ensures StoredStages(e, exec, empty, stages[..k]).Ok?
    ensures Surplus(IdsOf(stages), StoredStages(e, exec, empty, stages[..k]).value, path) <=
            Surplus(IdsOf(stages), StoredStages(e, exec, empty, stages).value, path)
    decreases |stages| - k
  {
    if k == |stages| {
      assert stages[..k] == stages;
    } else {
      SurplusStays(e, exec, empty, stages, k + 1, path);
      assert stages[..k + 1][..k] == stages[..k];
      NextIsNew(e, exec, empty, stages, k);
      StepSurplus(e, exec, empty, IdsOf(stages), StoredStages(e, exec, empty, stages[..k]).value, stages[k], path);
    }
  }

  /** Every stage but the last one is taken by a later stage, or harmless. */
  ghost predicate Settled(e: Settings, exec: Exec, empty: Partition, stages: seq<Stage>, finalKey: string) {
    forall i :: 0 <= i < |stages| ==>
      stages[i].id == finalKey || Taken(stages, i) || Harmless(e, exec, empty, stages[i])
  }

  ghost predicate Taken(stages: seq<Stage>, i: int)
    requires 0 <= i < |stages|
  {
    exists j :: i < j < |stages| && stages[i].id in stages[j].parents
  }

  /** A run that completes ends without a surplus. */
  lemma CompletedHasNoSurplus(e: Settings, exec: Exec, empty: Partition, stages: seq<Stage>, finalKey: string,
                              path: string)
    requires DistinctStages(stages) && Settled(e, exec, empty, stages, finalKey)
    requires StoredRun(e, exec, empty, stages, finalKey).Ok?
    ensures Surplus(IdsOf(stages), StoredStages(e, exec, empty, stages).value, path) <= 0
  {
    var w, ids := StoredStages(e, exec, empty, stages).value, IdsOf(stages);
    assert stages[..|stages|] == stages;
    LeftoverAfter(e, exec, empty, stages, |stages|);
    forall x | x in ids && x != finalKey ensures CountAt(w.results, x, path) == 0 {
      if x in w.results {
        var i :| 0 <= i < |stages| && Waits(e, exec, empty, stages, |stages|, w, x, i);
        assert !Taken(stages, i);
        CountNone(w.results[x], path);
      }
    }
    TotalOnly(ids, w.results, finalKey, path);
    LoadCounts(w.results[finalKey], w.files, path);
  }

  /** Up to every stage, a run that completes has gone as it would without spill files. */
  lemma {:induction false} CompletedIsClean(e: Settings, exec: Exec, empty: Partition, stages: seq<Stage>, k: nat)
    requires EngineLike(exec) && Fits(e, empty) && DistinctStages(stages) && ReadsAlone(stages) && k <= |stages|
    requires StoredStages(e, exec, empty, stages).Ok?
    requires forall path :: Surplus(IdsOf(stages), StoredStages(e, exec, empty, stages).value, path) <= 0
    ensures RunStages(exec, empty, stages[..k]).Ok? && Apart(e, RunStages(exec, empty, stages[..k]).value)
    ensures StoredStages(e, exec, empty, stages[..k]).Ok?
    ensures Represents(e, StoredStages(e, exec, empty, stages[..k]).value, RunStages(exec, empty, stages[..k]).value)
    ensures k > 0 ==> OrderlyAt(e, exec, RunStages(exec, empty, stages[..k - 1]), empty, stages[k - 1])
  {
    SurplusStays(e, exec, empty, stages, k, "");
    if k > 0 {
      CompletedIsClean(e, exec, empty, stages, k - 1);
      assert stages[..k][..k - 1] == stages[..k - 1];
      var w, results, st := StoredStages(e, exec, empty, stages[..k - 1]).value,
          RunStages(exec, empty, stages[..k - 1]).value, stages[k - 1];
      NextIsNew(e, exec, empty, stages, k - 1);
      forall path ensures Surplus(IdsOf(stages), StoredStep(e, exec, empty, w, st).value, path) <= 0 {
        SurplusStays(e, exec, empty, stages, k, path);
      }
      CleanStep(e, exec, empty, IdsOf(stages), w, results, st);
      StepTracks(e, exec, empty, w, results, st);
    }
  }

  lemma CompletedIsUntangled(e: Settings, exec: Exec, empty: Partition, stages: seq<Stage>, finalKey: string)
    requires EngineLike(exec) && Fits(e, empty) && DistinctStages(stages) && ReadsAlone(stages)
    requires Settled(e, exec, empty, stages, finalKey) && StoredRun(e, exec, empty, stages, finalKey).Ok?
    ensures Untangled(e, exec, empty, stages)
  {
    forall path ensures Surplus(IdsOf(stages), StoredStages(e, exec, empty, stages).value, path) <= 0 {
      CompletedHasNoSurplus(e, exec, empty, stages, finalKey, path);
    }
    forall k | 0 <= k <= |stages| ensures ApartAfter(e, RunStages(exec, empty, stages[..k])) {
      CompletedIsClean(e, exec, empty, stages, k);
    }
    forall k | 0 <= k < |stages| ensures OrderlyAt(e, exec, RunStages(exec, empty, stages[..k]), empty, stages[k]) {
      CompletedIsClean(e, exec, empty, stages, k + 1);
    }
  }

  /**
   At every memory limit, a run with spill files completes exactly when the run without them does and it is untangled;
   and a run that completes is right.
   */
  lemma CompletesIff(e: Settings, exec: Exec, empty: Partition, stages: seq<Stage>, finalKey: string)
    requires EngineLike(exec) && Fits(e, empty) && DistinctStages(stages) && ReadsAlone(stages)
    requires Settled(e, exec, empty, stages, finalKey)
    ensures StoredRun(e, exec, empty, stages, finalKey).Ok? <==>
            Run(exec, empty, stages, finalKey).Ok? && Untangled(e, exec, empty, stages)
    ensures StoredRun(e, exec, empty, stages, finalKey).Ok? ==>
              StoredRun(e, exec, empty, stages, finalKey) == Run(exec, empty, stages, finalKey)
  {
    if StoredRun(e, exec, empty, stages, finalKey).Ok? {
      CompletedIsUntangled(e, exec, empty, stages, finalKey);
    }
    if Untangled(e, exec, empty, stages) {
      SpillingIsInvisible(e, exec, empty, stages, finalKey);
    }
  }

  // ----- tasks

  lemma {:induction false} InjectMembers(nodes: seq<DagNode>, partitions: nat, n: DagNode)
    requires n in Inject(nodes, partitions)
    ensures n in nodes || (n.operator.ShuffleByKey? && n.id in InjectedIds(nodes))
  {
    var init, last := nodes[..|nodes| - 1], nodes[|nodes| - 1];
    assert nodes == init + [last];
    assert InjectedIds(init) <= InjectedIds(nodes) by {
      assert forall m :: m in init ==> m in nodes;
    }
    if n in Inject(init, partitions) {
      InjectMembers(init, partitions, n);
    } else if n != last {
      assert last in nodes && n.id == ShuffleId(last.id);
    }
  }

  /** Appending an id whose predecessors are all listed. */
  lemma ForwardLonger(edges: seq<DagEdge>, ids: seq<string>, more: seq<string>, id: string)
    requires Forward(edges, more) && PredsIn(edges, id, Elems(ids)) && forall x :: x in ids ==> x in more
    ensures Forward(edges, more + [id])
  {
    assert PredsIn(edges, id, Elems(more));
    ForwardAppend(edges, more, id);
  }

  /** Injection keeps every node behind its predecessors. */
  lemma {:induction false} InjectForward(edges: seq<DagEdge>, nodes: seq<DagNode>, partitions: nat)
    requires Forward(edges, Ids(nodes)) && forall e :: e in edges ==> e.dst !in InjectedIds(nodes)
    ensures Forward(edges, Ids(Inject(nodes, partitions)))
    ensures forall id :: id in Ids(nodes) ==> id in Ids(Inject(nodes, partitions))
  {
    if nodes != [] {
      var init, n := nodes[..|nodes| - 1], nodes[|nodes| - 1];
      assert nodes == init + [n] && n in nodes;
      assert InjectedIds(init) <= InjectedIds(nodes) by {
        assert forall m :: m in init ==> m in nodes;
      }
      IdsLast(init, n);
      ForwardInit(edges, Ids(init), n.id);
      InjectForward(edges, init, partitions);
      var out := Inject(init, partitions);
      if n.operator.ReduceByKey? && !EndsInShuffle(out, n.operator.key) {
        var s := DagNode(ShuffleId(n.id), ShuffleByKey(n.operator.key, partitions));
        assert s.id in InjectedIds(nodes) && out + [s, n] == (out + [s]) + [n];
        IdsLast(out, s);
        ForwardLonger(edges, [], Ids(out), s.id);
        IdsLast(out + [s], n);
        ForwardLonger(edges, Ids(init), Ids(out + [s]), n.id);
      } else {
        IdsLast(out, n);
        ForwardLonger(edges, Ids(init), Ids(out), n.id);
      }
    }
  }

  lemma ForwardInit(edges: seq<DagEdge>, ids: seq<string>, id: string)
    requires Forward(edges, ids + [id])
    ensures Forward(edges, ids) && PredsIn(edges, id, Elems(ids))
  {
    var more := ids + [id];
    forall i | 0 <= i < |ids| ensures PredsIn(edges, ids[i], Elems(ids[..i])) {
      assert PredsIn(edges, more[i], Elems(more[..i])) && more[..i] == ids[..i];
    }
    assert PredsIn(edges, more[|ids|], Elems(more[..|ids|])) && more[..|ids|] == ids;
  }

  /** In a forward list without repetition, the target of an edge comes after its source. */
  lemma TakenLater(edges: seq<DagEdge>, nodes: seq<DagNode>, i: nat, edge: DagEdge)
    requires Forward(edges, Ids(nodes)) && NoDup(Ids(nodes)) && i < |nodes|
    requires edge in edges && edge.src == nodes[i].id && edge.dst in Ids(nodes)
    ensures Taken(StagesFor(edges, nodes), i)
  {
    var ids, stages := Ids(nodes), StagesFor(edges, nodes);
    var j :| 0 <= j < |ids| && ids[j] == edge.dst;
    assert PredsIn(edges, ids[j], Elems(ids[..j]));
    assert edge.src in ids[..j];
    var m :| 0 <= m < j && ids[m] == edge.src;
    assert m == i by {
      assert ids[m] == ids[i];
    }
    assert edge == DagEdge(stages[i].id, nodes[j].id);
    assert stages[i].id in stages[j].parents;
  }

  /** No read is fed by an edge. */
  ghost predicate ReadsUnfed(spec: DagSpecification) {
    forall n :: n in spec.nodes && n.operator.Read? ==> Parents(spec.edges, n.id) == []
  }

  /** The outputs of a shuffle of the empty partition fit. */
  ghost predicate EmptyShufflesFit(e: Settings, exec: Exec, empty: Partition) {
    forall id, key, n ::
      var made := exec(id, ShuffleByKey(key, n), [empty]);
      made.Ok? ==> AllFitIn(e, made.value)
  }

  lemma NodeIsSettled(e: Settings, exec: Exec, empty: Partition, spec: DagSpecification, order: seq<DagNode>, i: nat,
                      sink: string)
    requires WellFormed(spec) && SingleSink(spec, sink) && CleanIds(spec) && TopoOrder(spec, order)
    requires EmptyShufflesFit(e, exec, empty) && i < |Inject(order, spec.partitions)|
    ensures var stages := StagesFor(spec.edges, Inject(order, spec.partitions));
            stages[i].id == sink || Taken(stages, i) || Harmless(e, exec, empty, stages[i])
  {
    var plan := Inject(order, spec.partitions);
    OrderIsDistinct(spec, order);
    OrderIsHidden(spec, order);
    PlanIsDistinct(spec, order);
    InjectForward(spec.edges, order, spec.partitions);
    InjectMembers(order, spec.partitions, plan[i]);
    if plan[i] in order {
      var k :| 0 <= k < |order| && order[k] == plan[i];
      assert Ids(order)[k] == plan[i].id && Declared(spec.nodes, plan[i].id);
      if plan[i].id != sink {
        var edge :| edge in spec.edges && edge.src == plan[i].id;
        assert Declared(spec.nodes, edge.dst) && edge.dst in Ids(order);
        TakenLater(spec.edges, plan, i, edge);
      }
    } else {
      NoParents(spec.edges, plan[i].id);
      var op := plan[i].operator;
      assert op == ShuffleByKey(op.key, op.totalPartitions);
    }
  }

  lemma PlanReadsAlone(spec: DagSpecification, order: seq<DagNode>)
    requires WellFormed(spec) && TopoOrder(spec, order) && ReadsUnfed(spec)
    ensures ReadsAlone(StagesFor(spec.edges, Inject(order, spec.partitions)))
  {
    var plan := Inject(order, spec.partitions);
    forall i | 0 <= i < |plan| && plan[i].operator.Read? ensures Parents(spec.edges, plan[i].id) == [] {
      InjectMembers(order, spec.partitions, plan[i]);
      assert plan[i] in multiset(order) && plan[i] in multiset(spec.nodes);
    }
  }

  /**
   Every task the master materialises, at every memory limit: it completes exactly when the job's sink evaluates and
   its run is untangled, and a task that completes outputs the value of the sink.
   */
  lemma TaskCompletesIff(e: Settings, spec: DagSpecification, exec: Exec, empty: Partition, job: Uuid, tasks: seq<Task>,
                         p: nat, sink: string)
    requires WellFormed(spec) && NoFanOut(spec.edges) && SingleSink(spec, sink) && CleanIds(spec) && ReadsUnfed(spec)
    requires ShuffleTotal(exec, empty) && EngineLike(exec) && Fits(e, empty) && EmptyShufflesFit(e, exec, empty)
    requires PossibleTasks(spec, job, tasks) && p < |tasks|
    ensures var r := StoredRun(e, exec, empty, StagesOf(tasks[p]), FinalKey(tasks[p]));
            && (r.Ok? <==> Eval(spec, exec, empty, sink).Ok? && Untangled(e, exec, empty, StagesOf(tasks[p])))
            && (r.Ok? ==> r == Eval(spec, exec, empty, sink))
  {
    TaskIsSettled(e, spec, exec, empty, job, tasks, p, sink);
    CompletesIff(e, exec, empty, StagesOf(tasks[p]), FinalKey(tasks[p]));
    TaskMeaning(spec, exec, empty, job, tasks, p, sink);
  }

  lemma PlanIsSettled(e: Settings, exec: Exec, empty: Partition, spec: DagSpecification, order: seq<DagNode>,
                      sink: string)
    requires WellFormed(spec) && SingleSink(spec, sink) && CleanIds(spec) && TopoOrder(spec, order)
    requires EmptyShufflesFit(e, exec, empty)
    ensures Settled(e, exec, empty, StagesFor(spec.edges, Inject(order, spec.partitions)), sink)
  {
    var stages := StagesFor(spec.edges, Inject(order, spec.partitions));
    forall i | 0 <= i < |stages|
      ensures stages[i].id == sink || Taken(stages, i) || Harmless(e, exec, empty, stages[i])
    {
      NodeIsSettled(e, exec, empty, spec, order, i, sink);
    }
  }

  /** The order a task was planned from, and what the worker reads back. */
  lemma OrderOfTask(spec: DagSpecification, job: Uuid, tasks: seq<Task>, p: nat, sink: string)
    returns (order: seq<DagNode>)
    requires WellFormed(spec) && SingleSink(spec, sink) && CleanIds(spec) && PossibleTasks(spec, job, tasks) &&
             p < |tasks|
    ensures TopoOrder(spec, order) && FinalKey(tasks[p]) == sink
    ensures StagesOf(tasks[p]) == StagesFor(spec.edges, Inject(order, spec.partitions))
  {
    order :| TasksFrom(spec, job, order, tasks);
    var plan := Inject(order, spec.partitions);
    assert tasks[p] == TaskFor(spec, job, plan, p);
    PossibleOrderIsTopological(spec, order);
    TaskStages(spec, job, plan, p);
    ReadSourceDeclared(spec.nodes);
    PossibleOrderNonEmpty(spec, order);
    LastIsSink(spec, order, sink);
    InjectNonEmpty(order, spec.partitions);
  }

  lemma TaskIsSettled(e: Settings, spec: DagSpecification, exec: Exec, empty: Partition, job: Uuid, tasks: seq<Task>,
                      p: nat, sink: string)
    requires WellFormed(spec) && SingleSink(spec, sink) && CleanIds(spec) && ReadsUnfed(spec)
    requires EmptyShufflesFit(e, exec, empty) && PossibleTasks(spec, job, tasks) && p < |tasks|
    ensures DistinctStages(StagesOf(tasks[p])) && ReadsAlone(StagesOf(tasks[p]))
    ensures Settled(e, exec, empty, StagesOf(tasks[p]), FinalKey(tasks[p]))
  {
    TaskStagesDistinct(spec, job, tasks, p);
    var order := OrderOfTask(spec, job, tasks, p, sink);
    PlanReadsAlone(spec, order);
    PlanIsSettled(e, exec, empty, spec, order, sink);
  }
}
