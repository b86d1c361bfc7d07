/** The master: job states in memory, rows in the store, and the code that changes them under its locks. */
module Master {
  import opened Prelude
  import opened Dag
  import opened Planner

  datatype TaskStatus =
    | Queued
    | Assigned(worker: WorkerId)
    | Running(worker: WorkerId)
    | Completed
    | Failed(message: string)
    | Retrying(attempt: nat)

  datatype JobStatus = JobAccepted | JobPending | JobRunning | JobCompleted | JobSucceeded | JobFailed

  datatype TaskResult = TaskResult(taskId: Uuid, jobId: Uuid, status: TaskStatus, path: string)

  datatype JobMetrics = JobMetrics(total: nat, completed: nat, failed: nat, pending: nat)

  datatype JobState = JobState(
    dag: DagSpecification,
    status: JobStatus,
    tasks: map<Uuid, TaskStatus>,
    results: seq<TaskResult>,
    metrics: JobMetrics,
    error: Option<string>)

  datatype JobRow = JobRow(status: JobStatus, dag: DagSpecification)

  datatype TaskRow = TaskRow(job: Uuid, status: TaskStatus, result: Option<TaskResult>)

  datatype Store = Store(jobs: map<Uuid, JobRow>, tasks: map<Uuid, TaskRow>)

  type Jobs = map<Uuid, JobState>

  /** Memory and store together. */
  datatype State = State(jobs: Jobs, store: Store)

  const NO_METRICS := JobMetrics(0, 0, 0, 0)

  // ----- the store's upserts

  function PersistJob(store: Store, job: Uuid, dag: DagSpecification, status: JobStatus): Store {
    store.(jobs := store.jobs[job := JobRow(status, dag)])
  }

  /** Keeps a stored result and the row's job. */
  function PersistTaskStatus(store: Store, task: Uuid, job: Uuid, status: TaskStatus): Store {
    var row := if task in store.tasks then store.tasks[task].(status := status) else TaskRow(job, status, None);
    store.(tasks := store.tasks[task := row])
  }

  function PersistTaskResult(store: Store, result: TaskResult): Store {
    var t := result.taskId;
    var row := if t in store.tasks then store.tasks[t].(status := result.status, result := Some(result))
               else TaskRow(result.jobId, result.status, Some(result));
    store.(tasks := store.tasks[t := row])
  }

  // ----- completion

  predicate AllCompleted(tasks: map<Uuid, TaskStatus>) {
    forall t :: t in tasks ==> tasks[t].Completed?
  }

  /** Truncated subtraction. */
  function Minus(a: nat, b: nat): nat {
    if b <= a then a - b else 0
  }

  function CountCompleted(m: JobMetrics): JobMetrics {
    m.(completed := m.completed + 1, pending := Minus(m.total, m.completed + 1 + m.failed))
  }

  function CountFailed(m: JobMetrics): JobMetrics {
    m.(failed := m.failed + 1, pending := Minus(m.total, m.completed + m.failed + 1))
  }

  /** The job after a result has been recorded. */
  function Recorded(job: JobState, result: TaskResult): JobState {
    var tasks := job.tasks[result.taskId := result.status];
    match result.status
    case Completed =>
      job.(tasks := tasks, results := job.results + [result], metrics := CountCompleted(job.metrics),
           status := if AllCompleted(tasks) then JobSucceeded else job.status)
    case Failed(message) =>
      job.(tasks := tasks, metrics := CountFailed(job.metrics), status := JobFailed, error := Some(message))
    case _ => job.(tasks := tasks)
  }

  /** `complete_task`: a result for an unknown job changes nothing. */
  function Complete(s: State, result: TaskResult): State {
    var j := result.jobId;
    if j !in s.jobs then s
    else
      var job := Recorded(s.jobs[j], result);
      var store := PersistTaskResult(s.store, result);
      State(s.jobs[j := job],
            if (result.status.Completed? && AllCompleted(job.tasks)) || result.status.Failed?
            then PersistJob(store, j, job.dag, job.status) else store)
  }

  // ----- scheduling, one lock at a time

  function AssignInMemory(s: State, job: Uuid, task: Uuid, w: WorkerId): State {
    if job in s.jobs then s.(jobs := s.jobs[job := s.jobs[job].(tasks := s.jobs[job].tasks[task := Assigned(w)])])
    else s
  }

  function AssignInStore(s: State, job: Uuid, task: Uuid, w: WorkerId): State {
    s.(store := PersistTaskStatus(s.store, task, job, Assigned(w)))
  }

  function MarkRunning(s: State, job: Uuid): State {
    if job in s.jobs && s.jobs[job].status != JobRunning then
      State(s.jobs[job := s.jobs[job].(status := JobRunning)], PersistJob(s.store, job, s.jobs[job].dag, JobRunning))
    else s
  }

  // ----- submission

  predicate ValidJoin(spec: DagSpecification, n: DagNode) {
    n.operator.Join? ==> |Parents(spec.edges, n.id)| == 2
  }

  /** `validate`: every join has exactly two incoming edges. */
  predicate Validated(spec: DagSpecification) {
    forall n :: n in spec.nodes ==> ValidJoin(spec, n)
  }

  ghost function TaskIds(tasks: seq<Task>): set<Uuid> {
    set t | t in tasks :: t.taskId
  }

  /** Exactly the tasks of `ids`, all queued. */
  ghost predicate AllQueued(ids: set<Uuid>, tasks: map<Uuid, TaskStatus>) {
    tasks.Keys == ids && forall t :: t in tasks ==> tasks[t] == Queued
  }

  /** The rows of `before` plus a queued row of `job` for each of `ids`. */
  ghost predicate RowsAdded(before: map<Uuid, TaskRow>, job: Uuid, ids: set<Uuid>, after: map<Uuid, TaskRow>) {
    && after.Keys == before.Keys + ids
    && (forall t :: t in before && t !in ids ==> after[t] == before[t])
    && forall t :: t in ids ==> after[t] == TaskRow(job, Queued, None)
  }

  /** Everything `submit_job` writes before it starts scheduling. */
  ghost predicate Submitted(s: State, job: Uuid, dag: DagSpecification, tasks: seq<Task>, s': State) {
    && job in s'.jobs && s'.jobs == s.jobs[job := s'.jobs[job]]
    && s'.jobs[job] == JobState(dag, JobAccepted, s'.jobs[job].tasks, [], JobMetrics(|tasks|, 0, 0, |tasks|), None)
    && AllQueued(TaskIds(tasks), s'.jobs[job].tasks)
    && s'.store.jobs == s.store.jobs[job := JobRow(JobAccepted, dag)]
    && RowsAdded(s.store.tasks, job, TaskIds(tasks), s'.store.tasks)
  }

  // ----- recovery

  /** Tasks that were in the hands of a worker are queued again. */
  function Requeued(status: TaskStatus): TaskStatus {
    if status.Assigned? || status.Running? then Queued else status
  }

  function RequeueStore(store: Store): Store {
    store.(tasks := map t | t in store.tasks :: store.tasks[t].(status := Requeued(store.tasks[t].status)))
  }

  function CompletedResult(row: TaskRow): seq<TaskResult> {
    if row.result.Some? && row.result.value.status.Completed? then [row.result.value] else []
  }

  function BareJob(row: JobRow): JobState {
    JobState(row.dag, row.status, map[], [], NO_METRICS, None)
  }

  const ORPHAN := JobState(DagSpecification([], [], 0), JobPending, map[], [], NO_METRICS, None)

  /** Adds one stored task; a task without a job gets a placeholder job. */
  function AddRow(jobs: Jobs, task: Uuid, row: TaskRow): Jobs {
    var job := if row.job in jobs then jobs[row.job] else ORPHAN;
    jobs[row.job := job.(tasks := job.tasks[task := Requeued(row.status)],
                         results := job.results + CompletedResult(row))]
  }

  /** The jobs rebuilt from a store whose task rows come in the order `rows`. */
  function RecoverJobs(store: Store, rows: seq<Uuid>): Jobs
    requires forall t :: t in rows ==> t in store.tasks
  {
    if rows == [] then map j | j in store.jobs :: BareJob(store.jobs[j])
    else
      var t := rows[|rows| - 1];
      AddRow(RecoverJobs(store, rows[..|rows| - 1]), t, store.tasks[t])
  }

  /** `rows` lists every stored task once. */
  ghost predicate Enumerates(rows: seq<Uuid>, store: Store) {
    NoDup(rows) && Elems(rows) == store.tasks.Keys
  }

  method Validate(dag: DagSpecification) returns (valid: bool)
    ensures valid <==> Validated(dag)
  {
    for i := 0 to |dag.nodes|
      invariant forall k :: 0 <= k < i ==> ValidJoin(dag, dag.nodes[k])
    {
      assert dag.nodes[i] in dag.nodes;
      if !ValidJoin(dag, dag.nodes[i]) {
        return false;
      }
    }
    valid := true;
  }

  /** Queues every task of a new job in memory and in the store. */
  method QueueTasks(before: Store, job: Uuid, ids: seq<Uuid>) returns (queued: map<Uuid, TaskStatus>, store: Store)
    requires forall t :: t in ids ==> t !in before.tasks
    ensures AllQueued(Elems(ids), queued)
    ensures store.jobs == before.jobs && RowsAdded(before.tasks, job, Elems(ids), store.tasks)
  {
    queued, store := map[], before;
    for k := 0 to |ids|
      invariant AllQueued(Elems(ids[..k]), queued)
      invariant store.jobs == before.jobs && RowsAdded(before.tasks, job, Elems(ids[..k]), store.tasks)
    {
      assert ids[..k + 1] == ids[..k] + [ids[k]];
      assert Elems(ids[..k + 1]) == Elems(ids[..k]) + {ids[k]};
      queued := queued[ids[k] := Queued];
      store := PersistTaskStatus(store, ids[k], job, Queued);
    }
    assert ids[..|ids|] == ids;
  }

  method QueueNewTasks(before: Store, job: Uuid, tasks: seq<Task>) returns (queued: map<Uuid, TaskStatus>, store: Store)
    requires forall t :: t in tasks ==> t.taskId !in before.tasks
    ensures AllQueued(TaskIds(tasks), queued)
    ensures store.jobs == before.jobs && RowsAdded(before.tasks, job, TaskIds(tasks), store.tasks)
  {
    var ids := seq(|tasks|, k requires 0 <= k < |tasks| => tasks[k].taskId);
    queued, store := QueueTasks(before, job, ids);
    SameIds(tasks, ids);
  }

  lemma SameIds(tasks: seq<Task>, ids: seq<Uuid>)
    requires |ids| == |tasks| && forall k :: 0 <= k < |ids| ==> ids[k] == tasks[k].taskId
    ensures Elems(ids) == TaskIds(tasks)
  {
    forall t | t in TaskIds(tasks) ensures t in Elems(ids) {
      var task :| task in tasks && task.taskId == t;
      var k :| 0 <= k < |tasks| && tasks[k] == task;
      assert ids[k] == t;
    }
  }

  predicate InFlight(status: TaskStatus) {
    status.Assigned? || status.Running?
  }

  function InFlightTasks(store: Store): set<Uuid> {
    set t | t in store.tasks && InFlight(store.tasks[t].status)
  }

  /** Rebuilds the jobs from the rows, in whatever order they come, and collects the tasks to queue again. */
  method LoadTasks(saved: Store) returns (jobs: Jobs, requeue: set<Uuid>, ghost rows: seq<Uuid>)
    ensures Enumerates(rows, saved) && (forall t :: t in rows ==> t in saved.tasks)
    ensures jobs == RecoverJobs(saved, rows)
    ensures requeue == InFlightTasks(saved)
  {
    jobs := map j | j in saved.jobs :: BareJob(saved.jobs[j]);
    rows, requeue := [], {};
    var todo := saved.tasks.Keys;
    while todo != {}
      invariant todo <= saved.tasks.Keys
      invariant NoDup(rows) && Elems(rows) == saved.tasks.Keys - todo
      invariant forall t :: t in rows ==> t in saved.tasks
      invariant jobs == RecoverJobs(saved, rows)
      invariant forall t :: t in requeue <==> t in saved.tasks && t !in todo && InFlight(saved.tasks[t].status)
      decreases todo
    {
      var t :| t in todo;
      assert t !in Elems(rows);
      assert Elems(rows + [t]) == Elems(rows) + {t};
      assert (rows + [t])[..|rows|] == rows;
      rows := rows + [t];
      if InFlight(saved.tasks[t].status) {
        requeue := requeue + {t};
      }
      jobs := AddRow(jobs, t, saved.tasks[t]);
      todo := todo - {t};
    }
  }

  /** Writes the queued status of every collected task. */
  method RequeueTasks(saved: Store, requeue: set<Uuid>) returns (store: Store)
    requires requeue == InFlightTasks(saved)
    ensures store == RequeueStore(saved)
  {
    store := saved;
    var todo := requeue;
    while todo != {}
      invariant todo <= requeue && store.jobs == saved.jobs && store.tasks.Keys == saved.tasks.Keys
      invariant forall t :: t in saved.tasks ==>
                  store.tasks[t] == if t in todo then saved.tasks[t]
                    else saved.tasks[t].(status := Requeued(saved.tasks[t].status))
      decreases todo
    {
      var t :| t in todo;
      store := PersistTaskStatus(store, t, saved.tasks[t].job, Queued);
      todo := todo - {t};
    }
    assert store.tasks == RequeueStore(saved).tasks;
  }

  // ----- the queued snapshot

  /** The job's task map was made by a materialisation of its specification. */
  ghost predicate PlannedFrom(job: Uuid, state: JobState) {
    exists tasks :: PossibleTasks(state.dag, job, tasks) && state.tasks.Keys == TaskIds(tasks)
  }

  /** Every materialisation of the job names the tasks in its map. */
  ghost predicate StablyPlanned(job: Uuid, state: JobState) {
    PlannedFrom(job, state) && StablePlan(state.dag)
  }

  ghost predicate Listed(tasks: seq<Task>, t: Uuid) {
    exists x :: x in tasks && x.taskId == t
  }

  /** Every queued task of the job is listed. */
  ghost predicate ListsQueued(tasks: seq<Task>, state: JobState) {
    forall t :: t in state.tasks && state.tasks[t] == Queued ==> Listed(tasks, t)
  }

  predicate IsQueued(state: JobState, task: Task) {
    task.taskId in state.tasks && state.tasks[task.taskId] == Queued
  }

  ghost predicate DistinctTaskIds(tasks: seq<Task>) {
    forall a, b :: 0 <= a < b < |tasks| ==> tasks[a].taskId != tasks[b].taskId
  }

  /** Re-materialises a job and keeps its queued tasks. */
  method JobSnapshot(job: Uuid, state: JobState) returns (out: seq<Task>)
    ensures DistinctTaskIds(out)
    ensures forall x :: x in out ==> x.jobId == job && x.taskId.V5? && x.taskId.ns == job && IsQueued(state, x)
    ensures StablyPlanned(job, state) ==> ListsQueued(out, state)
  {
    var tasks := MaterializeTasks(state.dag, job);
    TaskIdsDistinct(state.dag, job, tasks);
    out := KeepQueued(state, tasks);
    if StablyPlanned(job, state) {
      PlannedIds(job, state, tasks);
      forall t | t in state.tasks && state.tasks[t] == Queued ensures Listed(out, t) {
        var x :| x in tasks && x.taskId == t;
        assert IsQueued(state, x);
      }
    }
  }

  method KeepQueued(state: JobState, tasks: seq<Task>) returns (out: seq<Task>)
    requires DistinctTaskIds(tasks)
    ensures DistinctTaskIds(out)
    ensures forall x :: x in out <==> x in tasks && IsQueued(state, x)
  {
    out := [];
    for i := 0 to |tasks|
      invariant DistinctTaskIds(out)
      invariant forall x :: x in out <==> x in tasks[..i] && IsQueued(state, x)
    {
      assert tasks[..i + 1] == tasks[..i] + [tasks[i]];
      if tasks[i].taskId in state.tasks && state.tasks[tasks[i].taskId] == Queued {
        forall a | 0 <= a < |out| ensures out[a].taskId != tasks[i].taskId {
          assert out[a] in out;
          var k :| 0 <= k < i && tasks[k] == out[a];
        }
        out := out + [tasks[i]];
      }
    }
    assert tasks[..|tasks|] == tasks;
  }

  lemma ListsMore(a: seq<Task>, b: seq<Task>, state: JobState)
    requires ListsQueued(a, state) || ListsQueued(b, state)
    ensures ListsQueued(a + b, state)
  {
    forall t | t in state.tasks && state.tasks[t] == Queued ensures Listed(a + b, t) {
      assert Listed(a, t) || Listed(b, t);
      var x :| (x in a || x in b) && x.taskId == t;
      assert x in a + b;
    }
  }

  /** With stable ids, every materialisation names exactly the tasks of the job. */
  lemma PlannedIds(job: Uuid, state: JobState, tasks: seq<Task>)
    requires PlannedFrom(job, state) && StablePlan(state.dag) && PossibleTasks(state.dag, job, tasks)
    ensures state.tasks.Keys == TaskIds(tasks)
  {
    var first :| PossibleTasks(state.dag, job, first) && state.tasks.Keys == TaskIds(first);
    TaskIdsStableIff(state.dag, job);
    assert SameTaskIds(first, tasks);
    EqualIds(first, tasks);
    EqualIds(tasks, first);
  }

  lemma EqualIds(a: seq<Task>, b: seq<Task>)
    requires |a| == |b| && forall i :: 0 <= i < |a| ==> a[i].taskId == b[i].taskId
    ensures TaskIds(a) <= TaskIds(b)
  {
    forall t | t in TaskIds(a) ensures t in TaskIds(b) {
      var x :| x in a && x.taskId == t;
      var i :| 0 <= i < |a| && a[i] == x;
      assert b[i] in b && b[i].taskId == t;
    }
  }

  class MasterNode {
    var jobs: Jobs
    var store: Store
    /** The order in which the store returned its task rows at start-up. */
    ghost var rowOrder: seq<Uuid>

    ghost function Now(): State
      reads this
    {
      State(jobs, store)
    }

    /** `Master::new` on an existing store. */
    constructor (saved: Store)
      ensures Enumerates(rowOrder, saved)
      ensures jobs == RecoverJobs(saved, rowOrder)
      ensures store == RequeueStore(saved)
    {
      jobs, store, rowOrder := map[], saved, [];
      new;
      var loaded, requeue, order := LoadTasks(saved);
      jobs, rowOrder := loaded, order;
      store := RequeueTasks(saved, requeue);
    }

    /** `submit_job` up to its scheduling loop; the job id is new. */
    method SubmitJob(dag: DagSpecification, job: Uuid) returns (r: Result<seq<Task>, string>)
      requires job !in jobs && job !in store.jobs && forall t :: t in store.tasks ==> t.V5? && t.ns != job
      modifies this`jobs, this`store
      ensures !Validated(dag) ==> r.Err? && Now() == old(Now())
      ensures Validated(dag) ==>
                r.Ok? && PossibleTasks(dag, job, r.value) && Submitted(old(Now()), job, dag, r.value, Now())
    {
      var valid := Validate(dag);
      if !valid {
        return Err("join node must have exactly 2 parents");
      }
      var tasks := MaterializeTasks(dag, job);
      assert forall t :: t in tasks ==> t.taskId !in store.tasks by {
        TaskIdsDistinct(dag, job, tasks);
      }
      var queued, rows := QueueNewTasks(PersistJob(store, job, dag, JobAccepted), job, tasks);
      store := rows;
      jobs := jobs[job := JobState(dag, JobAccepted, queued, [], JobMetrics(|tasks|, 0, 0, |tasks|), None)];
      r := Ok(tasks);
    }

    /** `queued_tasks_snapshot`: queued tasks only, each once, and all of them where task ids are stable. */
    method QueuedTasksSnapshot() returns (out: seq<Task>)
      ensures DistinctTaskIds(out)
      ensures forall x :: x in out ==> x.jobId in jobs && IsQueued(jobs[x.jobId], x)
      ensures forall j :: j in jobs && StablyPlanned(j, jobs[j]) ==> ListsQueued(out, jobs[j])
    {
      out := [];
      var todo := jobs.Keys;
      while todo != {}
        invariant todo <= jobs.Keys
        invariant DistinctTaskIds(out)
        invariant forall x :: x in out ==> x.jobId in jobs && x.jobId !in todo
        invariant forall x :: x in out ==> x.taskId.V5? && x.taskId.ns == x.jobId && IsQueued(jobs[x.jobId], x)
        invariant forall j :: j in jobs && j !in todo && StablyPlanned(j, jobs[j]) ==> ListsQueued(out, jobs[j])
        decreases todo
      {
        var j :| j in todo;
        var more := JobSnapshot(j, jobs[j]);
        ghost var before := out;
        out := out + more;
        forall a, b | 0 <= a < b < |out| ensures out[a].taskId != out[b].taskId {
          if a < |before| <= b {
            assert out[a] in before && out[b] in more;
          }
        }
        forall k | k in jobs && (ListsQueued(before, jobs[k]) || ListsQueued(more, jobs[k]))
          ensures ListsQueued(out, jobs[k])
        {
          ListsMore(before, more, jobs[k]);
        }
        todo := todo - {j};
      }
    }

    method CompleteTask(result: TaskResult)
      modifies this`jobs, this`store
      ensures Now() == Complete(old(Now()), result)
    {
      var j := result.jobId;
      if j in jobs {
        var job := jobs[j];
        job := job.(tasks := job.tasks[result.taskId := result.status]);
        store := PersistTaskResult(store, result);
        match result.status {
          case Completed =>
            job := job.(results := job.results + [result]);
            var m := job.metrics;
            m := m.(completed := m.completed + 1);
            m := m.(pending := Minus(m.total, m.completed + m.failed));
            job := job.(metrics := m);
            var pending := exists t :: t in job.tasks && !job.tasks[t].Completed?;
            if !pending {
              job := job.(status := JobSucceeded);
              store := PersistJob(store, j, job.dag, JobSucceeded);
            }
          case Failed(message) =>
            var m := job.metrics;
            m := m.(failed := m.failed + 1);
            m := m.(pending := Minus(m.total, m.completed + m.failed));
            job := job.(metrics := m, status := JobFailed, error := Some(message));
            store := PersistJob(store, j, job.dag, JobFailed);
          case _ =>
        }
        jobs := jobs[j := job];
      }
    }

    /** `schedule_task` once a worker has been chosen: three critical sections before the dispatch. */
    method AssignTask(task: Task, w: WorkerId)
      modifies this`jobs, this`store
      ensures Now() ==
              MarkRunning(AssignInStore(AssignInMemory(old(Now()), task.jobId, task.taskId, w), task.jobId, task.taskId,
                                        w), task.jobId)
    {
      if task.jobId in jobs {
        var job := jobs[task.jobId];
        jobs := jobs[task.jobId := job.(tasks := job.tasks[task.taskId := Assigned(w)])];
      }
      store := PersistTaskStatus(store, task.taskId, task.jobId, Assigned(w));
      if task.jobId in jobs {
        var job := jobs[task.jobId];
        if job.status != JobRunning {
          jobs := jobs[task.jobId := job.(status := JobRunning)];
          store := PersistJob(store, task.jobId, job.dag, JobRunning);
        }
      }
    }
  }
}
