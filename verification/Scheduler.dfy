/** The worker registry and least-loaded selection with a rotating tie-break queue. */
module Scheduler {
  import opened Prelude

  datatype WorkerStatus = Active | Down | Idle | Running | Failed | Lost

  /** `cpu` is the CPU percentage as the cast to a 32-bit unsigned integer leaves it. */
  datatype WorkerMetrics = WorkerMetrics(tasksInFlight: nat, cpu: nat)

  datatype WorkerInfo = WorkerInfo(
    id: WorkerId,
    address: string,
    status: WorkerStatus,
    lastHeartbeat: int,
    metrics: WorkerMetrics)

  const TWO_32 := 0x1_0000_0000

  /** 32-bit arithmetic that wraps around. */
  function ComputeLoad(w: WorkerInfo): nat {
    (w.metrics.tasksInFlight % TWO_32 * 2 + w.metrics.cpu % TWO_32) % TWO_32
  }

  /** Weighted tasks and cpu points fit in 32 bits. */
  predicate NoWrap(tasks: nat, cpu: nat) {
    tasks + tasks + cpu < TWO_32
  }

  function LoadOf(w: WorkerInfo, tasks: nat, cpu: nat): nat {
    ComputeLoad(w.(metrics := WorkerMetrics(tasks, cpu)))
  }

  /**
   While nothing wraps: an idle worker has no load, one cpu point adds one, and one more task in flight weighs as much
   as two more cpu points. Load depends on nothing else.
   */
  lemma LoadWeights(w: WorkerInfo, tasks: nat, cpu: nat)
    ensures LoadOf(w, 0, 0) == 0
    ensures NoWrap(tasks, cpu + 1) ==> LoadOf(w, tasks, cpu + 1) == LoadOf(w, tasks, cpu) + 1
    ensures NoWrap(tasks + 1, cpu) ==> LoadOf(w, tasks + 1, cpu) == LoadOf(w, tasks, cpu + 2)
    ensures NoWrap(tasks + 1, cpu) ==> LoadOf(w, tasks + 1, cpu) > LoadOf(w, tasks, cpu + 1) > LoadOf(w, tasks, cpu)
    ensures ComputeLoad(w) == LoadOf(w, w.metrics.tasksInFlight, w.metrics.cpu)
  {
    Unwrapped(w, 0, 0);
    if NoWrap(tasks, cpu + 1) {
      Unwrapped(w, tasks, cpu);
      Unwrapped(w, tasks, cpu + 1);
    }
    if NoWrap(tasks + 1, cpu) {
      Unwrapped(w, tasks + 1, cpu);
      Unwrapped(w, tasks, cpu + 2);
      Unwrapped(w, tasks, cpu + 1);
      Unwrapped(w, tasks, cpu);
    }
  }

  lemma Unwrapped(w: WorkerInfo, tasks: nat, cpu: nat)
    requires tasks + tasks + cpu < TWO_32
    ensures LoadOf(w, tasks, cpu) == tasks + tasks + cpu
  {
    Below(tasks, TWO_32);
    Below(cpu, TWO_32);
    Below(tasks * 2 + cpu, TWO_32);
  }

  lemma Below(a: nat, m: nat)
    requires a < m
    ensures a % m == a
  {
  }

  // ----- the registry

  class Registry {
    var workers: map<WorkerId, WorkerInfo>

    /** Entries are stored under their own id. */
    ghost predicate Valid()
      reads this
    {
      forall id :: id in workers ==> workers[id].id == id
    }

    constructor ()
      ensures Valid() && workers == map[]
    {
      workers := map[];
    }

    method AddWorker(info: WorkerInfo)
      requires Valid()
      modifies this
      ensures Valid() && workers == old(workers)[info.id := info]
    {
      workers := workers[info.id := info];
    }

    /** A heartbeat revives a known worker and registers an unknown one. */
    method RecordHeartbeat(id: WorkerId, metrics: WorkerMetrics, address: string, now: int)
      requires Valid()
      modifies this
      ensures Valid()
      ensures id in workers && workers[id].status == Active && workers[id].lastHeartbeat == now &&
              workers[id].metrics == metrics
      ensures workers[id].address == if id in old(workers) then old(workers)[id].address else address
      ensures workers == old(workers)[id := workers[id]]
    {
      if id in workers {
        workers := workers[id := workers[id].(lastHeartbeat := now, metrics := metrics, status := Active)];
      } else {
        workers := workers[id := WorkerInfo(id, address, Active, now, metrics)];
      }
    }

    /** Active workers whose last heartbeat is more than `grace` ago go down; the clock may also run backwards. */
    method MarkStaleWorkers(grace: nat, now: int)
      requires Valid()
      modifies this
      ensures Valid() && workers.Keys == old(workers).Keys
      ensures forall id :: id in workers ==>
                workers[id] == if old(workers)[id].status == Active && now - old(workers)[id].lastHeartbeat > grace
                               then old(workers)[id].(status := Down) else old(workers)[id]
    {
      workers := map id | id in workers ::
        if workers[id].status == Active && now - workers[id].lastHeartbeat > grace
        then workers[id].(status := Down) else workers[id];
    }

    /** The active workers, in whatever order the hash map yields them. */
    method AvailableWorkers() returns (out: seq<WorkerInfo>)
      requires Valid()
      ensures Listing(out)
      ensures forall w :: w in out <==> w.id in workers && workers[w.id] == w && w.status == Active
    {
      out := [];
      var todo := workers.Keys;
      while todo != {}
        invariant todo <= workers.Keys
        invariant forall w :: w in out <==> w.id in workers && w.id !in todo && workers[w.id] == w && w.status == Active
        invariant Listing(out)
        decreases todo
      {
        var id :| id in todo;
        if workers[id].status == Active {
          assert forall w :: w in out ==> w.id != id;
          out := out + [workers[id]];
        }
        todo := todo - {id};
      }
    }
  }

  /** What selection sees after the watchdog's sweep: exactly the active workers with a recent heartbeat. */
  method SweepAndList(registry: Registry, grace: nat, now: int) returns (out: seq<WorkerInfo>)
    requires registry.Valid()
    modifies registry
    ensures registry.Valid() && Listing(out)
    ensures forall w :: w in out <==>
              && w.id in old(registry.workers) && old(registry.workers)[w.id] == w
              && w.status == Active && now - w.lastHeartbeat <= grace
  {
    registry.MarkStaleWorkers(grace, now);
    out := registry.AvailableWorkers();
  }

  // ----- selection

  /** Worker infos with pairwise distinct ids. */
  ghost predicate Listing(workers: seq<WorkerInfo>) {
    forall i, j :: 0 <= i < j < |workers| ==> workers[i].id != workers[j].id
  }

  function WorkerIds(workers: seq<WorkerInfo>): (r: seq<WorkerId>)
    ensures |r| == |workers| && forall i :: 0 <= i < |r| ==> r[i] == workers[i].id
  {
    seq(|workers|, i requires 0 <= i < |workers| => workers[i].id)
  }

  /** No worker of the list has a smaller load. */
  predicate MinimalLoad(workers: seq<WorkerInfo>, load: nat) {
    forall w :: w in workers ==> load <= ComputeLoad(w)
  }

  /** Ids of the workers with the smallest load. */
  ghost function LeastLoaded(workers: seq<WorkerInfo>): set<WorkerId> {
    set w | w in workers && MinimalLoad(workers, ComputeLoad(w)) :: w.id
  }

  /** The queue the walk starts from: rebuilt when its length differs from the number of workers. */
  function Refreshed(queue: seq<WorkerId>, workers: seq<WorkerInfo>): seq<WorkerId> {
    if queue == [] || |queue| != |workers| then WorkerIds(workers) else queue
  }

  /** Position of the first element of `queue` in `eligible`, or its length. */
  ghost function FirstIn(queue: seq<WorkerId>, eligible: set<WorkerId>): (r: nat)
    ensures r <= |queue|
    ensures r < |queue| ==> queue[r] in eligible
    ensures forall i :: 0 <= i < r ==> queue[i] !in eligible
  {
    if queue == [] then 0 else if queue[0] in eligible then 0 else 1 + FirstIn(queue[1..], eligible)
  }

  /** The worker the walk takes: the first eligible one, or the front when there is none. */
  ghost function Choice(queue: seq<WorkerId>, eligible: set<WorkerId>): WorkerId
    requires queue != []
  {
    var k := FirstIn(queue, eligible);
    if k < |queue| then queue[k] else queue[0]
  }

  /** The queue after the walk: rotated past the chosen worker. */
  ghost function Rotated(queue: seq<WorkerId>, eligible: set<WorkerId>): seq<WorkerId>
    requires queue != []
  {
    var k := FirstIn(queue, eligible);
    if k < |queue| then queue[k + 1..] + queue[..k + 1] else queue[1..] + [queue[0]]
  }

  /** The worker one selection chooses. */
  ghost function Chosen(queue: seq<WorkerId>, workers: seq<WorkerInfo>): WorkerId
    requires workers != []
  {
    Choice(Refreshed(queue, workers), LeastLoaded(workers))
  }

  /** The queue after one selection. */
  ghost function NextQueue(queue: seq<WorkerId>, workers: seq<WorkerInfo>): seq<WorkerId> {
    if workers == [] then queue else Rotated(Refreshed(queue, workers), LeastLoaded(workers))
  }

  class RoundRobinScheduler {
    var cursor: nat
    var queue: seq<WorkerId>

    constructor ()
      ensures cursor == 0 && queue == []
    {
      cursor, queue := 0, [];
    }

    /** `select_worker` on a listing of the active workers. */
    method SelectWorker(workers: seq<WorkerInfo>) returns (selected: Option<WorkerId>)
      requires Listing(workers)
      modifies this
      ensures workers == [] ==> selected == None && unchanged(this)
      ensures workers != [] ==> selected == Some(Chosen(old(queue), workers)) && queue == NextQueue(old(queue), workers)
      ensures workers != [] ==> cursor < |workers|
    {
      if workers == [] {
        return None;
      }
      if queue == [] || |queue| != |workers| {
        queue := WorkerIds(workers);
      }
      var leastLoaded := LeastLoadedIds(workers);
      var id := Walk(leastLoaded);
      selected := Some(id);
      cursor := (cursor + 1) % |workers|;
    }

    /** Rotates the queue to the first eligible worker, or by one when there is none. */
    method Walk(eligible: set<WorkerId>) returns (id: WorkerId)
      requires queue != []
      modifies this`queue
      ensures id == Choice(old(queue), eligible) && queue == Rotated(old(queue), eligible)
    {
      ghost var q := queue;
      for steps := 0 to |queue|
        invariant |queue| == |q| && queue == q[steps..] + q[..steps]
        invariant forall i :: 0 <= i < steps ==> q[i] !in eligible
      {
        id := queue[0];
        queue := queue[1..] + [id];
        if id in eligible {
          WalkStops(q, eligible, steps);
          return;
        }
        assert queue == q[steps + 1..] + q[..steps + 1];
      }
      assert queue == q;
      id := queue[0];
      queue := queue[1..] + [id];
    }
  }

  /** Ids of the workers whose load equals the minimum. */
  method LeastLoadedIds(workers: seq<WorkerInfo>) returns (ids: set<WorkerId>)
    requires workers != []
    ensures ids == LeastLoaded(workers)
  {
    var minLoad := ComputeLoad(workers[0]);
    ghost var m := workers[0];
    for i := 0 to |workers|
      invariant m in workers && ComputeLoad(m) == minLoad
      invariant forall j :: 0 <= j < i ==> minLoad <= ComputeLoad(workers[j])
    {
      if ComputeLoad(workers[i]) < minLoad {
        minLoad, m := ComputeLoad(workers[i]), workers[i];
      }
    }
    LeastLoadedAt(workers, minLoad);
    ids := set w | w in workers && ComputeLoad(w) == minLoad :: w.id;
  }

  lemma LeastLoadedAt(workers: seq<WorkerInfo>, minLoad: nat)
    requires exists w :: w in workers && ComputeLoad(w) == minLoad
    requires forall j :: 0 <= j < |workers| ==> minLoad <= ComputeLoad(workers[j])
    ensures (set w | w in workers && ComputeLoad(w) == minLoad :: w.id) == LeastLoaded(workers)
  {
    assert forall w :: w in workers ==> (ComputeLoad(w) == minLoad <==> MinimalLoad(workers, ComputeLoad(w)));
  }

  lemma WalkStops(q: seq<WorkerId>, eligible: set<WorkerId>, k: nat)
    requires k < |q| && q[k] in eligible && forall i :: 0 <= i < k ==> q[i] !in eligible
    ensures FirstIn(q, eligible) == k
    ensures (q[k..] + q[..k])[1..] + [q[k]] == Rotated(q, eligible)
  {
    assert (q[k..] + q[..k])[1..] + [q[k]] == q[k + 1..] + q[..k + 1];
  }

  // ----- what selection guarantees

  /** The queue holds exactly the ids of the listed workers, each once. */
  ghost predicate Fresh(queue: seq<WorkerId>, workers: seq<WorkerInfo>) {
    NoDup(queue) && Elems(queue) == Elems(WorkerIds(workers))
  }

  lemma ListingIds(workers: seq<WorkerInfo>)
    requires Listing(workers)
    ensures Fresh(WorkerIds(workers), workers)
    ensures workers != [] ==> LeastLoaded(workers) != {}
    ensures LeastLoaded(workers) <= Elems(WorkerIds(workers))
  {
    forall id | id in LeastLoaded(workers) ensures id in WorkerIds(workers) {
      var w :| w in workers && w.id == id;
      var i :| 0 <= i < |workers| && workers[i] == w;
      assert WorkerIds(workers)[i] == id;
    }
    if workers != [] {
      var m := LightestWorker(workers);
      assert m.id in LeastLoaded(workers);
    }
  }

  lemma {:induction false} LightestWorker(workers: seq<WorkerInfo>) returns (m: WorkerInfo)
    requires workers != []
    ensures m in workers && MinimalLoad(workers, ComputeLoad(m))
  {
    m := workers[0];
    if |workers| > 1 {
      var n := LightestWorker(workers[1..]);
      assert workers == [workers[0]] + workers[1..];
      if ComputeLoad(n) < ComputeLoad(m) {
        m := n;
      }
    }
  }

  lemma ChoiceOf(queue: seq<WorkerId>, eligible: set<WorkerId>)
    requires queue != []
    ensures Choice(queue, eligible) in eligible <==> exists id :: id in queue && id in eligible
  {
    var k := FirstIn(queue, eligible);
    if k < |queue| {
      assert queue[k] in queue;
    } else {
      assert queue[0] !in eligible;
    }
  }

  /** A rebuilt or fresh queue always yields an active worker of minimum load. */
  lemma SelectionIsLightest(queue: seq<WorkerId>, workers: seq<WorkerInfo>)
    requires Listing(workers) && workers != []
    requires |queue| != |workers| || Fresh(queue, workers)
    ensures var q := Refreshed(queue, workers);
            q != [] && Choice(q, LeastLoaded(workers)) in LeastLoaded(workers) &&
              Fresh(Rotated(q, LeastLoaded(workers)), workers)
  {
    ListingIds(workers);
    var q, ll := Refreshed(queue, workers), LeastLoaded(workers);
    var id :| id in ll;
    assert id in Elems(q);
    ChoiceOf(q, ll);
    RotationKeeps(q, ll);
  }

  lemma RotationKeeps(q: seq<WorkerId>, eligible: set<WorkerId>)
    requires q != [] && NoDup(q)
    ensures NoDup(Rotated(q, eligible)) && Elems(Rotated(q, eligible)) == Elems(q)
  {
    var k := FirstIn(q, eligible);
    var cut := if k < |q| then k + 1 else 1;
    assert q == q[..cut] + q[cut..];
    assert Rotated(q, eligible) == q[cut..] + q[..cut];
    NoDupParts(q[..cut], q[cut..]);
    NoDupConcat(q[cut..], q[..cut]);
  }

  /** The queue after the selections of a run of listings. */
  ghost function QueueAfter(queue: seq<WorkerId>, run: seq<seq<WorkerInfo>>): seq<WorkerId> {
    if run == [] then queue
    else NextQueue(QueueAfter(queue, run[..|run| - 1]), run[|run| - 1])
  }

  /** The listings name the same workers. */
  ghost predicate SameIds(a: seq<WorkerInfo>, b: seq<WorkerInfo>) {
    Elems(WorkerIds(a)) == Elems(WorkerIds(b))
  }

  /** From a size change on, while the set of active workers stays the same, every selection is least loaded. */
  lemma {:induction false} RunStaysLightest(queue: seq<WorkerId>, run: seq<seq<WorkerInfo>>)
    requires run != [] && forall i :: 0 <= i < |run| ==> Listing(run[i]) && run[i] != [] && SameIds(run[i], run[0])
    requires |queue| != |run[0]|
    ensures LastChoice(queue, run) in LeastLoaded(run[|run| - 1])
    ensures Fresh(QueueAfter(queue, run), run[0])
  {
    var init, workers := run[..|run| - 1], run[|run| - 1];
    if init == [] {
      SelectionIsLightest(queue, workers);
    } else {
      assert init[0] == run[0];
      RunStaysLightest(queue, init);
      SelectionIsLightest(QueueAfter(queue, init), workers);
    }
  }

  /** The worker chosen for the last listing of a run. */
  ghost function LastChoice(queue: seq<WorkerId>, run: seq<seq<WorkerInfo>>): WorkerId
    requires run != [] && run[|run| - 1] != []
  {
    Chosen(QueueAfter(queue, run[..|run| - 1]), run[|run| - 1])
  }

  /**
   The first listing rebuilds the queue, and no later one has another length; listings without workers change nothing.
   */
  ghost predicate SameLength(queue: seq<WorkerId>, run: seq<seq<WorkerInfo>>) {
    && run != [] && run[0] != [] && Listing(run[0]) && |queue| != |run[0]|
    && forall i :: 0 <= i < |run| ==> run[i] == [] || |run[i]| == |run[0]|
  }

  /** Until the next rebuild the queue holds the workers of the last one. */
  lemma {:induction false} QueueKeepsWorkers(queue: seq<WorkerId>, run: seq<seq<WorkerInfo>>)
    requires SameLength(queue, run)
    ensures Fresh(QueueAfter(queue, run), run[0]) && |QueueAfter(queue, run)| == |run[0]|
  {
    var init, workers := run[..|run| - 1], run[|run| - 1];
    if init == [] {
      ListingIds(workers);
      RotationKeeps(WorkerIds(workers), LeastLoaded(workers));
      RotatedLength(WorkerIds(workers), LeastLoaded(workers));
    } else {
      assert init[0] == run[0];
      QueueKeepsWorkers(queue, init);
      if workers != [] {
        RotationKeeps(QueueAfter(queue, init), LeastLoaded(workers));
        RotatedLength(QueueAfter(queue, init), LeastLoaded(workers));
      }
    }
  }

  /** A selection is least loaded exactly when some least-loaded worker was active at the last rebuild. */
  lemma LightestIff(queue: seq<WorkerId>, run: seq<seq<WorkerInfo>>)
    requires SameLength(queue, run) && run[|run| - 1] != []
    ensures var ll := LeastLoaded(run[|run| - 1]);
            LastChoice(queue, run) in ll <==> exists id :: id in ll && id in WorkerIds(run[0])
  {
    var init, workers := run[..|run| - 1], run[|run| - 1];
    var q := Refreshed(QueueAfter(queue, init), workers);
    if init != [] {
      assert init[0] == run[0];
      QueueKeepsWorkers(queue, init);
    }
    assert Elems(q) == Elems(WorkerIds(run[0]));
    assert forall id :: id in q <==> id in WorkerIds(run[0]) by {
      assert forall id :: id in q <==> id in Elems(q);
    }
    ChoiceOf(q, LeastLoaded(workers));
  }

  /**
   From an empty queue: `a` and `b` are active and `a` is chosen, then `c` takes the place of `b`. The queue is not
   rebuilt, and the second selection chooses `b`, which is no longer active, although `c` is least loaded.
   */
  lemma StaleQueueExample(a: WorkerInfo, b: WorkerInfo, c: WorkerInfo)
    requires a.id != b.id && a.id != c.id && b.id != c.id
    requires ComputeLoad(c) < ComputeLoad(a) < ComputeLoad(b)
    ensures LastChoice([], [[a, b]]) == a.id
    ensures LastChoice([], [[a, b], [a, c]]) == b.id && b.id !in WorkerIds([a, c])
  {
    assert [[a, b]][..0] == [] && [[a, b], [a, c]][..1] == [[a, b]];
    LightestOfTwo(a, b);
    LightestOfTwo(c, a);
    assert WorkerIds([a, b]) == [a.id, b.id];
    assert Choice([a.id, b.id], {a.id}) == a.id;
    assert Rotated([a.id, b.id], {a.id}) == [b.id, a.id];
    assert QueueAfter([], [[a, b]]) == [b.id, a.id];
    NoneEligible([b.id, a.id], {c.id});
  }

  /** With no eligible worker in the queue the front is chosen. */
  lemma NoneEligible(q: seq<WorkerId>, eligible: set<WorkerId>)
    requires q != [] && forall i :: 0 <= i < |q| ==> q[i] !in eligible
    ensures Choice(q, eligible) == q[0]
  {
  }

  lemma LightestOfTwo(a: WorkerInfo, b: WorkerInfo)
    requires ComputeLoad(a) < ComputeLoad(b)
    ensures LeastLoaded([a, b]) == {a.id} == LeastLoaded([b, a])
  {
    assert a in [a, b] && a in [b, a];
    assert MinimalLoad([a, b], ComputeLoad(a)) && MinimalLoad([b, a], ComputeLoad(a));
    assert !MinimalLoad([a, b], ComputeLoad(b)) && !MinimalLoad([b, a], ComputeLoad(b));
  }

  // ----- fairness

  ghost function Eligible(queue: seq<WorkerId>, eligible: set<WorkerId>): seq<WorkerId> {
    Filter(queue, id => id in eligible)
  }

  lemma {:induction false} NothingEligible(s: seq<WorkerId>, eligible: set<WorkerId>)
    requires forall i :: 0 <= i < |s| ==> s[i] !in eligible
    ensures Eligible(s, eligible) == []
  {
    if s == [] {
    } else {
      NothingEligible(s[..|s| - 1], eligible);
    }
  }

  lemma EligibleConcat(a: seq<WorkerId>, b: seq<WorkerId>, eligible: set<WorkerId>)
    ensures Eligible(a + b, eligible) == Eligible(a, eligible) + Eligible(b, eligible)
  {
    FilterConcat(a, b, id => id in eligible);
  }

  lemma EligibleFrom(pre: seq<WorkerId>, x: WorkerId, eligible: set<WorkerId>)
    requires x in eligible && forall i :: 0 <= i < |pre| ==> pre[i] !in eligible
    ensures Eligible(pre + [x], eligible) == [x]
  {
    NothingEligible(pre, eligible);
    assert (pre + [x])[..|pre|] == pre;
  }

  /** A selection takes the first eligible worker and moves it behind the others. */
  lemma SelectionRotates(q: seq<WorkerId>, eligible: set<WorkerId>)
    requires exists id :: id in q && id in eligible
    ensures var e := Eligible(q, eligible);
            e != [] && Choice(q, eligible) == e[0] && Eligible(Rotated(q, eligible), eligible) == e[1..] + [e[0]]
  {
    var k := FirstIn(q, eligible);
    var id :| id in q && id in eligible;
    var i :| 0 <= i < |q| && q[i] == id;
    assert k < |q|;
    var pre, x, post := q[..k], q[k], q[k + 1..];
    assert q == (pre + [x]) + post;
    assert q[..k + 1] == pre + [x];
    EligibleFrom(pre, x, eligible);
    EligibleConcat(pre + [x], post, eligible);
    EligibleConcat(post, pre + [x], eligible);
  }

  /** The workers n selections choose while registry and loads stay as they are. */
  ghost function Picks(q: seq<WorkerId>, eligible: set<WorkerId>, n: nat): seq<WorkerId>
    requires q != []
    decreases n
  {
    if n == 0 then []
    else
      RotatedLength(q, eligible);
      [Choice(q, eligible)] + Picks(Rotated(q, eligible), eligible, n - 1)
  }

  lemma RotatedLength(q: seq<WorkerId>, eligible: set<WorkerId>)
    requires q != []
    ensures |Rotated(q, eligible)| == |q|
  {
  }

  lemma {:induction false} PicksFollowQueue(q: seq<WorkerId>, eligible: set<WorkerId>, n: nat)
    requires exists id :: id in q && id in eligible
    requires n <= |Eligible(q, eligible)|
    ensures Picks(q, eligible, n) == Eligible(q, eligible)[..n]
    decreases n
  {
    if n == 0 {
    } else {
      SelectionRotates(q, eligible);
      var e, r := Eligible(q, eligible), Rotated(q, eligible);
      FilterMember(r, (id: WorkerId) => id in eligible, e[0]);
      assert e[0] in Eligible(r, eligible);
      PicksFollowQueue(r, eligible, n - 1);
      RotatePrefix(e, n);
    }
  }

  lemma RotatePrefix<T>(e: seq<T>, n: nat)
    requires 0 < n <= |e|
    ensures [e[0]] + (e[1..] + [e[0]])[..n - 1] == e[..n]
  {
  }

  /** `n` selections on one listing. */
  ghost function Repeat(workers: seq<WorkerInfo>, n: nat): seq<seq<WorkerInfo>> {
    seq(n, _ => workers)
  }

  /** The workers chosen over a run of listings. */
  ghost function Selections(queue: seq<WorkerId>, run: seq<seq<WorkerInfo>>): seq<WorkerId>
    requires forall i :: 0 <= i < |run| ==> run[i] != []
  {
    if run == [] then [] else Selections(queue, run[..|run| - 1]) + [LastChoice(queue, run)]
  }

  lemma SelectionsLast(queue: seq<WorkerId>, run: seq<seq<WorkerInfo>>, w: seq<WorkerInfo>)
    requires w != [] && forall i :: 0 <= i < |run| ==> run[i] != []
    ensures QueueAfter(queue, run + [w]) == NextQueue(QueueAfter(queue, run), w)
    ensures Selections(queue, run + [w]) == Selections(queue, run) + [Chosen(QueueAfter(queue, run), w)]
  {
    var more := run + [w];
    assert more[..|run|] == run && more[|run|] == w;
  }

  lemma {:induction false} SelectionsFirst(queue: seq<WorkerId>, w: seq<WorkerInfo>, run: seq<seq<WorkerInfo>>)
    requires w != [] && forall i :: 0 <= i < |run| ==> run[i] != []
    ensures QueueAfter(queue, [w] + run) == QueueAfter(NextQueue(queue, w), run)
    ensures Selections(queue, [w] + run) == [Chosen(queue, w)] + Selections(NextQueue(queue, w), run)
  {
    if run == [] {
      SelectionsLast(queue, [], w);
      assert [w] + run == [w] && [] + [w] == [w];
      assert [Chosen(queue, w)] + [] == [Chosen(queue, w)];
    } else {
      var init, last := run[..|run| - 1], run[|run| - 1];
      assert run == init + [last] && [w] + run == ([w] + init) + [last];
      SelectionsFirst(queue, w, init);
      SelectionsLast(queue, [w] + init, last);
      SelectionsLast(NextQueue(queue, w), init, last);
      AppendInside([Chosen(queue, w)], Selections(NextQueue(queue, w), init),
                   Chosen(QueueAfter(NextQueue(queue, w), init), last));
    }
  }

  lemma RepeatFirst(workers: seq<WorkerInfo>, n: nat)
    requires n > 0
    ensures Repeat(workers, n) == [workers] + Repeat(workers, n - 1)
  {
  }

  lemma {:induction false} SelectionsArePicks(queue: seq<WorkerId>, workers: seq<WorkerInfo>, n: nat)
    requires workers != [] && |queue| == |workers|
    ensures Selections(queue, Repeat(workers, n)) == Picks(queue, LeastLoaded(workers), n)
    decreases n
  {
    if n == 0 {
    } else {
      RotatedLength(queue, LeastLoaded(workers));
      RepeatFirst(workers, n);
      SelectionsFirst(queue, workers, Repeat(workers, n - 1));
      SelectionsArePicks(NextQueue(queue, workers), workers, n - 1);
    }
  }

  lemma FreshLength(queue: seq<WorkerId>, workers: seq<WorkerInfo>)
    requires Listing(workers) && Fresh(queue, workers)
    ensures |queue| == |workers|
  {
    ListingIds(workers);
    NoDupSize(queue);
    NoDupSize(WorkerIds(workers));
  }

  /** With m least-loaded workers, any m consecutive selections return each of them exactly once. */
  lemma FairRotation(queue: seq<WorkerId>, workers: seq<WorkerInfo>)
    requires Listing(workers) && workers != [] && Fresh(queue, workers)
    ensures var ll := LeastLoaded(workers);
            var picks := Selections(queue, Repeat(workers, |ll|));
            NoDup(picks) && Elems(picks) == ll
  {
    var ll := LeastLoaded(workers);
    FreshLength(queue, workers);
    SelectionsArePicks(queue, workers, |ll|);
    var p := (id: WorkerId) => id in ll;
    ListingIds(workers);
    var id :| id in ll;
    assert id in Elems(queue);
    var e := Eligible(queue, ll);
    FilterNoDup(queue, p);
    forall x ensures x in e <==> x in ll {
      FilterMember(queue, p, x);
      assert x in queue <==> x in Elems(queue);
    }
    assert Elems(e) == ll;
    NoDupSize(e);
    PicksFollowQueue(queue, ll, |ll|);
    assert e[..|e|] == e;
  }
}
