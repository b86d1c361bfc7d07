/**
 The master as a state machine: submission, the critical sections of `schedule_task`, reports and crashes.
 Every scheduling pass is broken into one activity per task, so all interleavings of passes are covered.
 */
module Protocol {
  import opened Prelude
  import opened Dag
  import opened Planner
  import opened Master

  /** Where an activation of `schedule_task` stands between two critical sections. */
  datatype Phase =
    | Waiting                   // in the snapshot of a pass
    | Chosen(worker: WorkerId)  // a worker has been selected
    | InMemory(worker: WorkerId)
    | InStore(worker: WorkerId)
    | Marked(worker: WorkerId)  // the job is running; the task is about to be sent

  /**
   `held` lists the activations working on a task, `dispatched` the tasks sent in this master lifetime,
   `awaiting` the sent tasks that have not been reported, `submitted` the jobs submitted in this lifetime.
   */
  datatype Sys = Sys(
    state: State,
    held: map<Uuid, seq<Phase>>,
    dispatched: multiset<Uuid>,
    awaiting: multiset<Uuid>,
    submitted: set<Uuid>)

  datatype Step =
    | Submit(job: Uuid, dag: DagSpecification, tasks: seq<Task>)
    | BeginPass(queued: seq<Uuid>)
    | Choose(task: Uuid, i: nat, worker: Option<WorkerId>)
    | WriteMemory(task: Uuid, i: nat)
    | WriteStore(task: Uuid, i: nat)
    | Mark(task: Uuid, i: nat)
    | Send(task: Uuid, i: nat, known: bool)
    | Report(result: TaskResult)
    | Crash(rows: seq<Uuid>)

  function HeldBy(s: Sys, t: Uuid): seq<Phase> {
    if t in s.held then s.held[t] else []
  }

  /** `t` is a task of a job in memory. */
  predicate Known(jobs: Jobs, t: Uuid) {
    t.V5? && t.ns in jobs && t in jobs[t.ns].tasks
  }

  predicate HasPhase(s: Sys, t: Uuid, i: nat) {
    i < |HeldBy(s, t)|
  }

  function WithPhase(s: Sys, t: Uuid, i: nat, p: Phase): Sys
    requires HasPhase(s, t, i)
  {
    s.(held := s.held[t := HeldBy(s, t)[i := p]])
  }

  function WithoutPhase(s: Sys, t: Uuid, i: nat): Sys
    requires HasPhase(s, t, i)
  {
    s.(held := s.held[t := HeldBy(s, t)[..i] + HeldBy(s, t)[i + 1..]])
  }

  /** `s'` differs from `s` in its state, in `job` being submitted here, and in an activation for each of `ids`. */
  ghost predicate HeldAnew(s: Sys, job: Uuid, ids: set<Uuid>, s': Sys) {
    && s' == s.(state := s'.state, held := s'.held, submitted := s.submitted + {job})
    && forall t :: HeldBy(s', t) == if t in ids then HeldBy(s, t) + [Waiting] else HeldBy(s, t)
  }

  /**
   A new job is written to the store and to memory. From then on the submission is a pass over the new tasks:
   it schedules each of them without another look at its status.
   */
  ghost predicate SubmitStep(s: Sys, job: Uuid, dag: DagSpecification, tasks: seq<Task>, s': Sys) {
    && job !in s.state.jobs && Validated(dag) && PossibleTasks(dag, job, tasks)
    && Submitted(s.state, job, dag, tasks, s'.state)
    && HeldAnew(s, job, TaskIds(tasks), s')
  }

  /** A pass takes its snapshot: distinct tasks, all queued at that moment. */
  ghost predicate BeginStep(s: Sys, queued: seq<Uuid>, s': Sys) {
    && NoDup(queued)
    && (forall t :: t in queued ==> Known(s.state.jobs, t) && s.state.jobs[t.ns].tasks[t] == Queued)
    && s' == s.(held := s'.held)
    && forall t :: HeldBy(s', t) == if t in queued then HeldBy(s, t) + [Waiting] else HeldBy(s, t)
  }

  /** A worker is selected, or there is none and the activation ends. */
  ghost predicate ChooseStep(s: Sys, t: Uuid, i: nat, w: Option<WorkerId>, s': Sys) {
    && HasPhase(s, t, i) && HeldBy(s, t)[i].Waiting?
    && s' == if w.Some? then WithPhase(s, t, i, Chosen(w.value)) else WithoutPhase(s, t, i)
  }

  ghost predicate WriteMemoryStep(s: Sys, t: Uuid, i: nat, s': Sys) {
    && t.V5? && HasPhase(s, t, i) && HeldBy(s, t)[i].Chosen?
    && var w := HeldBy(s, t)[i].worker;
       s' == WithPhase(s, t, i, InMemory(w)).(state := AssignInMemory(s.state, t.ns, t, w))
  }

  ghost predicate WriteStoreStep(s: Sys, t: Uuid, i: nat, s': Sys) {
    && t.V5? && HasPhase(s, t, i) && HeldBy(s, t)[i].InMemory?
    && var w := HeldBy(s, t)[i].worker;
       s' == WithPhase(s, t, i, InStore(w)).(state := AssignInStore(s.state, t.ns, t, w))
  }

  ghost predicate MarkStep(s: Sys, t: Uuid, i: nat, s': Sys) {
    && t.V5? && HasPhase(s, t, i) && HeldBy(s, t)[i].InStore?
    && s' == WithPhase(s, t, i, Marked(HeldBy(s, t)[i].worker)).(state := MarkRunning(s.state, t.ns))
  }

  /** The task is posted to its worker, unless the registry no longer knows the worker. */
  ghost predicate SendStep(s: Sys, t: Uuid, i: nat, known: bool, s': Sys) {
    && HasPhase(s, t, i) && HeldBy(s, t)[i].Marked?
    && var sent := if known then multiset{t} else multiset{};
       s' == WithoutPhase(s, t, i).(dispatched := s.dispatched + sent, awaiting := s.awaiting + sent)
  }

  /** A worker reports a task that was sent to it: at most one report per dispatch. */
  ghost predicate ReportStep(s: Sys, r: TaskResult, s': Sys) {
    && r.taskId in s.awaiting && r.taskId.V5? && r.jobId == r.taskId.ns && (r.status.Completed? || r.status.Failed?)
    && s' == s.(state := Complete(s.state, r), awaiting := s.awaiting - multiset{r.taskId})
  }

  /** The master stops and starts again on its store. */
  ghost predicate CrashStep(s: Sys, rows: seq<Uuid>, s': Sys) {
    && Enumerates(rows, s.state.store) && (forall t :: t in rows ==> t in s.state.store.tasks)
    && s' == Sys(State(RecoverJobs(s.state.store, rows), RequeueStore(s.state.store)), map[], multiset{}, multiset{},
                 {})
  }

  ghost predicate Next(s: Sys, step: Step, s': Sys) {
    match step
    case Submit(job, dag, tasks) => SubmitStep(s, job, dag, tasks, s')
    case BeginPass(queued) => BeginStep(s, queued, s')
    case Choose(t, i, w) => ChooseStep(s, t, i, w, s')
    case WriteMemory(t, i) => WriteMemoryStep(s, t, i, s')
    case WriteStore(t, i) => WriteStoreStep(s, t, i, s')
    case Mark(t, i) => MarkStep(s, t, i, s')
    case Send(t, i, known) => SendStep(s, t, i, known, s')
    case Report(r) => ReportStep(s, r, s')
    case Crash(rows) => CrashStep(s, rows, s')
  }

  /** A pass that begins takes no task an earlier pass still holds; in particular, passes may not overlap. */
  ghost predicate Careful(s: Sys, step: Step) {
    step.BeginPass? ==> forall t :: t in step.queued ==> HeldBy(s, t) == []
  }

  // ----- the invariant, task by task

  /** What memory, store, activation and counts say about one task. */
  datatype Cell = Cell(mem: TaskStatus, row: TaskRow, held: seq<Phase>, dispatched: nat, awaiting: nat)

  ghost function CellOf(s: Sys, t: Uuid): Cell
    requires Known(s.state.jobs, t) && t in s.state.store.tasks
  {
    Cell(s.state.jobs[t.ns].tasks[t], s.state.store.tasks[t], HeldBy(s, t), s.dispatched[t], s.awaiting[t])
  }

  ghost predicate ResultFor(row: TaskRow, t: Uuid, status: TaskStatus) {
    row.result.Some? && row.result.value.taskId == t && row.result.value.status == status
  }

  /**
   A task is unassigned, on its way to a worker, sent, or finished; memory and store agree up to one pending write.
   */
  ghost predicate CellOk(t: Uuid, c: Cell) {
    && c.awaiting <= c.dispatched <= 1
    && |c.held| <= 1
    && match c.mem
       case Queued =>
         && c.row.status == Queued && c.row.result.None? && c.dispatched == 0
         && (c.held != [] ==> c.held[0].Waiting? || c.held[0].Chosen?)
       case Assigned(w) =>
         && c.row.result.None?
         && (if c.held == [] then c.row.status == Assigned(w)
             else
               && c.dispatched == 0 && !c.held[0].Waiting? && !c.held[0].Chosen? && c.held[0].worker == w
               && c.row.status == if c.held[0].InMemory? then Queued else Assigned(w))
       case Completed => c.held == [] && c.awaiting == 0 && c.row.status == Completed && ResultFor(c.row, t, Completed)
       case Failed(m) => c.held == [] && c.awaiting == 0 && c.row.status == Failed(m) && ResultFor(c.row, t, Failed(m))
       case _ => false
  }

  ghost predicate OwnTasks(jobs: Jobs) {
    forall j, t :: j in jobs && t in jobs[j].tasks ==> t.V5? && t.ns == j
  }

  ghost predicate RowsMatch(jobs: Jobs, rows: map<Uuid, TaskRow>) {
    (forall t :: t in rows <==> Known(jobs, t)) && forall t :: t in rows ==> rows[t].job == t.ns
  }

  ghost predicate Touched(s: Sys, t: Uuid) {
    t in s.dispatched || t in s.awaiting || HeldBy(s, t) != []
  }

  ghost predicate TouchedKnown(s: Sys) {
    forall t :: Touched(s, t) ==> Known(s.state.jobs, t)
  }

  ghost predicate Shape(s: Sys) {
    && s.state.jobs.Keys == s.state.store.jobs.Keys
    && OwnTasks(s.state.jobs)
    && RowsMatch(s.state.jobs, s.state.store.tasks)
    && TouchedKnown(s)
  }

  ghost predicate CellsOk(s: Sys)
    requires Shape(s)
  {
    forall t :: t in s.state.store.tasks ==> CellOk(t, CellOf(s, t))
  }

  // ----- the invariant, job by job

  ghost predicate JobRowOk(job: JobState, row: JobRow) {
    row == JobRow(job.status, job.dag)
  }

  /** A job with tasks has succeeded exactly when all of them are completed. */
  ghost predicate StatusOk(job: JobState) {
    job.tasks != map[] ==> (job.status == JobSucceeded <==> AllCompleted(job.tasks))
  }

  /** The results in memory are the stored results of the completed tasks, each once. */
  ghost predicate ResultsOk(job: JobState, rows: map<Uuid, TaskRow>) {
    && NoDup(job.results)
    && forall r :: r in job.results <==>
         r.taskId in job.tasks && r.taskId in rows && rows[r.taskId].result == Some(r) && r.status.Completed?
  }

  ghost function CompletedTasks(job: JobState): set<Uuid> {
    set t | t in job.tasks && job.tasks[t].Completed?
  }

  ghost function FailedTasks(job: JobState): set<Uuid> {
    set t | t in job.tasks && job.tasks[t].Failed?
  }

  /** Counters of a job submitted in this lifetime, and of one recovered from the store. */
  ghost predicate MetricsOk(job: JobState, here: bool) {
    var m := job.metrics;
    if here then
      && m.total == |job.tasks|
      && m.completed == |CompletedTasks(job)|
      && m.failed == |FailedTasks(job)|
      && m.completed + m.failed + m.pending == m.total
    else m.total == 0 && m.pending == 0
  }

  ghost predicate JobOk(s: Sys, j: Uuid)
    requires j in s.state.jobs && j in s.state.store.jobs
  {
    var job := s.state.jobs[j];
    && JobRowOk(job, s.state.store.jobs[j])
    && StatusOk(job)
    && ResultsOk(job, s.state.store.tasks)
    && MetricsOk(job, j in s.submitted)
  }

  ghost predicate JobsOk(s: Sys)
    requires Shape(s)
  {
    forall j :: j in s.state.jobs ==> JobOk(s, j)
  }

  ghost predicate Inv(s: Sys) {
    Shape(s) && CellsOk(s) && JobsOk(s)
  }

  const EMPTY := Sys(State(map[], Store(map[], map[])), map[], multiset{}, multiset{}, {})

  lemma EmptyInv()
    ensures Inv(EMPTY)
  {
  }

  // ----- steps that touch one task

  /** Between `s` and `s'` only task `t0`, its row and its job's other fields may differ. */
  ghost predicate OnlyTask(s: Sys, s': Sys, t0: Uuid)
    requires Known(s.state.jobs, t0)
  {
    var j := t0.ns;
    && j in s'.state.jobs && s'.state.jobs == s.state.jobs[j := s'.state.jobs[j]]
    && t0 in s'.state.jobs[j].tasks
    && s'.state.jobs[j].tasks == s.state.jobs[j].tasks[t0 := s'.state.jobs[j].tasks[t0]]
    && j in s'.state.store.jobs && s'.state.store.jobs == s.state.store.jobs[j := s'.state.store.jobs[j]]
    && t0 in s'.state.store.tasks && s'.state.store.tasks == s.state.store.tasks[t0 := s'.state.store.tasks[t0]]
    && s'.state.store.tasks[t0].job == j
    && s'.submitted == s.submitted
    && forall t :: t != t0 ==>
       HeldBy(s', t) == HeldBy(s, t) && s'.dispatched[t] == s.dispatched[t] && s'.awaiting[t] == s.awaiting[t]
  }

  lemma SameKnown(s: Sys, s': Sys, t0: Uuid)
    requires Known(s.state.jobs, t0) && OnlyTask(s, s', t0)
    ensures forall t :: Known(s'.state.jobs, t) <==> Known(s.state.jobs, t)
    ensures s'.state.jobs.Keys == s.state.jobs.Keys
  {
  }

  lemma OnlyTaskTouched(s: Sys, s': Sys, t0: Uuid)
    requires TouchedKnown(s) && Known(s.state.jobs, t0) && OnlyTask(s, s', t0)
    ensures TouchedKnown(s')
  {
    SameKnown(s, s', t0);
    forall t | Touched(s', t) ensures Known(s'.state.jobs, t) {
      assert t != t0 ==> Touched(s, t);
    }
  }

  lemma OnlyTaskRows(s: Sys, s': Sys, t0: Uuid)
    requires RowsMatch(s.state.jobs, s.state.store.tasks) && Known(s.state.jobs, t0) && OnlyTask(s, s', t0)
    ensures RowsMatch(s'.state.jobs, s'.state.store.tasks)
  {
    SameKnown(s, s', t0);
  }

  lemma OnlyTaskOwn(s: Sys, s': Sys, t0: Uuid)
    requires OwnTasks(s.state.jobs) && Known(s.state.jobs, t0) && OnlyTask(s, s', t0)
    ensures OwnTasks(s'.state.jobs)
  {
    forall j, t | j in s'.state.jobs && t in s'.state.jobs[j].tasks ensures t.V5? && t.ns == j {
      assert j in s.state.jobs && t in s.state.jobs[j].tasks;
    }
  }

  lemma OnlyTaskShape(s: Sys, s': Sys, t0: Uuid)
    requires Shape(s) && Known(s.state.jobs, t0) && OnlyTask(s, s', t0)
    ensures Shape(s')
  {
    SameKnown(s, s', t0);
    OnlyTaskTouched(s, s', t0);
    OnlyTaskRows(s, s', t0);
    OnlyTaskOwn(s, s', t0);
    assert t0.ns in s.state.store.jobs.Keys;
  }

  lemma OtherCellKept(s: Sys, s': Sys, t0: Uuid, t: Uuid)
    requires Shape(s) && Known(s.state.jobs, t0) && OnlyTask(s, s', t0) && Shape(s')
    requires t in s'.state.store.tasks && t != t0
    ensures t in s.state.store.tasks && CellOf(s', t) == CellOf(s, t)
  {
  }

  lemma OnlyTaskCells(s: Sys, s': Sys, t0: Uuid)
    requires Shape(s) && CellsOk(s) && Known(s.state.jobs, t0) && OnlyTask(s, s', t0) && Shape(s')
    requires CellOk(t0, CellOf(s', t0))
    ensures CellsOk(s')
  {
    forall t | t in s'.state.store.tasks && t != t0 ensures CellOk(t, CellOf(s', t)) {
      OtherCellKept(s, s', t0, t);
    }
  }

  /** Another job is unaffected by a change to the row of `t0`. */
  lemma OtherJobKept(s: Sys, s': Sys, t0: Uuid, j: Uuid)
    requires Shape(s) && Known(s.state.jobs, t0) && OnlyTask(s, s', t0) && Shape(s')
    requires j in s.state.jobs && j != t0.ns && JobOk(s, j)
    ensures j in s'.state.jobs && j in s'.state.store.jobs && JobOk(s', j)
  {
    var job := s.state.jobs[j];
    assert s'.state.jobs[j] == job;
    assert t0 !in job.tasks;
    assert forall t :: t in job.tasks ==> t != t0;
    assert ResultsOk(job, s'.state.store.tasks);
  }

  /** A step confined to one task keeps the invariant if that task's cell and job are in order afterwards. */
  lemma OnlyTaskKeepsInv(s: Sys, s': Sys, t0: Uuid)
    requires Inv(s) && Known(s.state.jobs, t0) && OnlyTask(s, s', t0)
    requires CellOk(t0, CellOf(s', t0))
    requires JobOk(s', t0.ns)
    ensures Inv(s')
  {
    OnlyTaskShape(s, s', t0);
    OnlyTaskCells(s, s', t0);
    forall j | j in s'.state.jobs ensures JobOk(s', j) {
      if j != t0.ns {
        assert JobOk(s, j);
        OtherJobKept(s, s', t0, j);
      }
    }
  }

  /** What the invariant says about one task. */
  lemma Instance(s: Sys, t: Uuid)
    requires Inv(s) && (t in s.state.store.tasks || Known(s.state.jobs, t) || Touched(s, t))
    ensures Known(s.state.jobs, t) && t in s.state.store.tasks && CellOk(t, CellOf(s, t))
    ensures t.ns in s.state.store.jobs && JobOk(s, t.ns) && s.state.store.tasks[t].job == t.ns
  {
    assert Known(s.state.jobs, t);
    assert t in s.state.store.tasks;
    assert t.ns in s.state.jobs;
  }

  /** Activations and counts of one task may change while memory and store do not. */
  lemma OnlyByMove(s: Sys, s': Sys, t0: Uuid)
    requires Known(s.state.jobs, t0) && s'.state == s.state && s'.submitted == s.submitted
    requires forall t :: t != t0 ==>
             HeldBy(s', t) == HeldBy(s, t) && s'.dispatched[t] == s.dispatched[t] && s'.awaiting[t] == s.awaiting[t]
    requires t0 in s.state.store.tasks && t0.ns in s.state.store.jobs && s.state.store.tasks[t0].job == t0.ns
    ensures OnlyTask(s, s', t0)
  {
    var jobs, tasks, rows := s.state.jobs, s.state.jobs[t0.ns].tasks, s.state.store;
    assert jobs == jobs[t0.ns := jobs[t0.ns]] && tasks == tasks[t0 := tasks[t0]];
    assert rows.jobs == rows.jobs[t0.ns := rows.jobs[t0.ns]] && rows.tasks == rows.tasks[t0 := rows.tasks[t0]];
  }

  lemma MoveKeepsInv(s: Sys, s': Sys, t0: Uuid)
    requires Inv(s) && Known(s.state.jobs, t0) && s'.state == s.state && s'.submitted == s.submitted
    requires forall t :: t != t0 ==>
             HeldBy(s', t) == HeldBy(s, t) && s'.dispatched[t] == s.dispatched[t] && s'.awaiting[t] == s.awaiting[t]
    requires t0 in s.state.store.tasks && CellOk(t0, CellOf(s', t0))
    ensures Inv(s')
  {
    Instance(s, t0);
    OnlyByMove(s, s', t0);
    assert JobOk(s', t0.ns);
    OnlyTaskKeepsInv(s, s', t0);
  }

  lemma BeginShape(s: Sys, queued: seq<Uuid>, s': Sys)
    requires Shape(s) && BeginStep(s, queued, s')
    ensures Shape(s')
  {
    forall t | Touched(s', t) ensures Known(s'.state.jobs, t) {
      assert t in queued || Touched(s, t);
    }
  }

  lemma BeginCell(s: Sys, queued: seq<Uuid>, s': Sys, t: Uuid)
    requires Inv(s) && BeginStep(s, queued, s') && (t in queued ==> HeldBy(s, t) == [])
    requires t in s.state.store.tasks && Known(s.state.jobs, t)
    ensures CellOk(t, CellOf(s', t))
  {
    Instance(s, t);
    if t in queued {
      assert HeldBy(s', t) == [Waiting];
      assert CellOf(s', t) == CellOf(s, t).(held := [Waiting]);
    } else {
      assert CellOf(s', t) == CellOf(s, t);
    }
  }

  lemma BeginKeepsInv(s: Sys, queued: seq<Uuid>, s': Sys)
    requires Inv(s) && BeginStep(s, queued, s') && forall t :: t in queued ==> HeldBy(s, t) == []
    ensures Inv(s')
  {
    BeginShape(s, queued, s');
    forall t | t in s'.state.store.tasks ensures CellOk(t, CellOf(s', t)) {
      BeginCell(s, queued, s', t);
    }
    forall j | j in s'.state.jobs ensures JobOk(s', j) {
      assert JobOk(s, j);
    }
  }

  lemma ChooseKeepsInv(s: Sys, t: Uuid, i: nat, w: Option<WorkerId>, s': Sys)
    requires Inv(s) && ChooseStep(s, t, i, w, s')
    ensures Inv(s')
  {
    assert Touched(s, t);
    Instance(s, t);
    MoveKeepsInv(s, s', t);
  }

  lemma SendKeepsInv(s: Sys, t: Uuid, i: nat, known: bool, s': Sys)
    requires Inv(s) && SendStep(s, t, i, known, s')
    ensures Inv(s')
  {
    assert Touched(s, t);
    Instance(s, t);
    MoveKeepsInv(s, s', t);
  }

  /** Replacing a status that is not Completed by another one leaves results and counters as they are. */
  lemma SwapOpenStatus(job: JobState, job': JobState, t0: Uuid, rows: map<Uuid, TaskRow>, rows': map<Uuid, TaskRow>,
                       here: bool)
    requires t0 in job.tasks && t0 in job'.tasks && t0 in rows && t0 in rows'
    requires job' == job.(tasks := job.tasks[t0 := job'.tasks[t0]], status := job'.status)
    requires rows' == rows[t0 := rows'[t0]] && rows'[t0].result.None? && rows[t0].result.None?
    requires !job.tasks[t0].Completed? && !job.tasks[t0].Failed? && !job'.tasks[t0].Completed? &&
             !job'.tasks[t0].Failed?
    requires ResultsOk(job, rows) && MetricsOk(job, here)
    ensures ResultsOk(job', rows') && MetricsOk(job', here)
  {
    assert job'.tasks.Keys == job.tasks.Keys;
    assert CompletedTasks(job') == CompletedTasks(job);
    assert FailedTasks(job') == FailedTasks(job);
  }

  lemma WriteMemoryKeepsInv(s: Sys, t0: Uuid, i: nat, s': Sys)
    requires Inv(s) && WriteMemoryStep(s, t0, i, s')
    ensures Inv(s')
  {
    assert Touched(s, t0);
    Instance(s, t0);
    WriteMemoryKeepsJob(s, t0, i, s');
    WriteMemoryEffect(s, t0, i, s');
    OnlyTaskKeepsInv(s, s', t0);
  }

  lemma WriteMemoryEffect(s: Sys, t0: Uuid, i: nat, s': Sys)
    requires WriteMemoryStep(s, t0, i, s') && Known(s.state.jobs, t0) && t0 in s.state.store.tasks
    requires t0.ns in s.state.store.jobs && s.state.store.tasks[t0].job == t0.ns && CellOk(t0, CellOf(s, t0))
    ensures OnlyTask(s, s', t0) && CellOk(t0, CellOf(s', t0))
  {
  }

  lemma WriteMemoryKeepsJob(s: Sys, t0: Uuid, i: nat, s': Sys)
    requires WriteMemoryStep(s, t0, i, s') && Known(s.state.jobs, t0) && t0 in s.state.store.tasks
    requires t0.ns in s.state.store.jobs && JobOk(s, t0.ns) && s.state.store.tasks[t0].job == t0.ns
    requires CellOk(t0, CellOf(s, t0))
    ensures JobOk(s', t0.ns)
  {
    var job, job' := s.state.jobs[t0.ns], s'.state.jobs[t0.ns];
    SwapOpenStatus(job, job', t0, s.state.store.tasks, s'.state.store.tasks, t0.ns in s.submitted);
    assert !AllCompleted(job.tasks) && !AllCompleted(job'.tasks);
  }

  lemma WriteStoreEffect(s: Sys, t0: Uuid, i: nat, s': Sys)
    requires WriteStoreStep(s, t0, i, s') && Known(s.state.jobs, t0) && t0 in s.state.store.tasks
    requires t0.ns in s.state.store.jobs && s.state.store.tasks[t0].job == t0.ns
    ensures OnlyTask(s, s', t0) && s'.state.jobs == s.state.jobs && s'.state.store.jobs == s.state.store.jobs
    ensures s'.state.store.tasks[t0].result == s.state.store.tasks[t0].result
  {
    var j := t0.ns;
    assert s.state.jobs[j].tasks == s.state.jobs[j].tasks[t0 := s.state.jobs[j].tasks[t0]];
    assert s.state.jobs == s.state.jobs[j := s.state.jobs[j]];
    assert s.state.store.jobs == s.state.store.jobs[j := s.state.store.jobs[j]];
  }

  lemma WriteStoreKeepsInv(s: Sys, t0: Uuid, i: nat, s': Sys)
    requires Inv(s) && WriteStoreStep(s, t0, i, s')
    ensures Inv(s')
  {
    assert Touched(s, t0);
    Instance(s, t0);
    WriteStoreEffect(s, t0, i, s');
    assert JobOk(s', t0.ns) by {
      var job := s.state.jobs[t0.ns];
      SwapOpenStatus(job, job, t0, s.state.store.tasks, s'.state.store.tasks, t0.ns in s.submitted);
    }
    OnlyTaskKeepsInv(s, s', t0);
  }

  lemma MarkEffect(s: Sys, t0: Uuid, i: nat, s': Sys)
    requires MarkStep(s, t0, i, s') && Known(s.state.jobs, t0) && t0 in s.state.store.tasks
    requires t0.ns in s.state.store.jobs && s.state.store.tasks[t0].job == t0.ns
    requires JobRowOk(s.state.jobs[t0.ns], s.state.store.jobs[t0.ns])
    ensures OnlyTask(s, s', t0) && s'.state.store.tasks == s.state.store.tasks
    ensures s'.state.jobs[t0.ns] == s.state.jobs[t0.ns].(status := JobRunning)
    ensures s'.state.store.jobs[t0.ns] == s.state.store.jobs[t0.ns].(status := JobRunning)
  {
    var j := t0.ns;
    assert s'.state.jobs == s.state.jobs[j := s'.state.jobs[j]];
    assert s'.state.store.jobs == s.state.store.jobs[j := s'.state.store.jobs[j]];
  }

  lemma MarkKeepsInv(s: Sys, t0: Uuid, i: nat, s': Sys)
    requires Inv(s) && MarkStep(s, t0, i, s')
    ensures Inv(s')
  {
    assert Touched(s, t0);
    Instance(s, t0);
    MarkEffect(s, t0, i, s');
    assert JobOk(s', t0.ns) by {
      var job, job', rows := s.state.jobs[t0.ns], s'.state.jobs[t0.ns], s.state.store.tasks;
      assert job'.tasks == job.tasks[t0 := job.tasks[t0]] && rows == rows[t0 := rows[t0]];
      SwapOpenStatus(job, job', t0, rows, rows, t0.ns in s.submitted);
      assert !AllCompleted(job'.tasks);
    }
    OnlyTaskKeepsInv(s, s', t0);
  }

  // ----- reports

  lemma CompletedReport(job: JobState, job': JobState, r: TaskResult, rows: map<Uuid, TaskRow>,
                        rows': map<Uuid, TaskRow>, here: bool)
    requires r.status.Completed? && job' == Recorded(job, r)
    requires r.taskId in job.tasks && job.tasks[r.taskId].Assigned?
    requires r.taskId in rows && rows[r.taskId].result.None?
    requires rows' == rows[r.taskId := rows[r.taskId].(status := r.status, result := Some(r))]
    requires ResultsOk(job, rows) && MetricsOk(job, here)
    ensures ResultsOk(job', rows') && MetricsOk(job', here)
  {
    var t0 := r.taskId;
    assert r !in job.results;
    assert forall x :: x in job.results ==> x.taskId != t0;
    NoDupAppend(job.results, r);
    assert forall x :: x in job'.results <==> x in job.results || x == r;
    assert job'.tasks.Keys == job.tasks.Keys;
    assert CompletedTasks(job') == CompletedTasks(job) + {t0};
    assert FailedTasks(job') == FailedTasks(job);
    if here {
      CountsFit(job');
    }
  }

  lemma FailedReport(job: JobState, job': JobState, r: TaskResult, rows: map<Uuid, TaskRow>, rows': map<Uuid, TaskRow>,
                     here: bool)
    requires r.status.Failed? && job' == Recorded(job, r)
    requires r.taskId in job.tasks && job.tasks[r.taskId].Assigned?
    requires r.taskId in rows && rows[r.taskId].result.None?
    requires rows' == rows[r.taskId := rows[r.taskId].(status := r.status, result := Some(r))]
    requires ResultsOk(job, rows) && MetricsOk(job, here)
    ensures ResultsOk(job', rows') && MetricsOk(job', here)
  {
    var t0 := r.taskId;
    assert forall x :: x in job.results ==> x.taskId != t0;
    assert job'.tasks.Keys == job.tasks.Keys;
    assert CompletedTasks(job') == CompletedTasks(job);
    assert FailedTasks(job') == FailedTasks(job) + {t0};
    if here {
      CountsFit(job');
    }
  }

  /** Completed and failed tasks are disjoint parts of the job's tasks. */
  lemma CountsFit(job: JobState)
    ensures |CompletedTasks(job)| + |FailedTasks(job)| <= |job.tasks|
  {
    var both := CompletedTasks(job) + FailedTasks(job);
    assert both <= job.tasks.Keys;
    assert |both| == |CompletedTasks(job)| + |FailedTasks(job)|;
    SubsetSize(both, job.tasks.Keys);
  }

  /** The reported task was sent, is assigned, and has no result yet. */
  lemma ReportedTask(s: Sys, r: TaskResult, s': Sys)
    requires Inv(s) && ReportStep(s, r, s')
    ensures var t0 := r.taskId;
            && Known(s.state.jobs, t0) && t0 in s.state.store.tasks && t0.ns in s.state.store.jobs
            && s.state.jobs[t0.ns].tasks[t0].Assigned? && s.state.store.tasks[t0].result.None? &&
               s.state.store.tasks[t0].job == t0.ns
            && HeldBy(s, t0) == [] && s.dispatched[t0] == 1 && s'.awaiting[t0] == 0
            && JobOk(s, t0.ns)
  {
    assert Touched(s, r.taskId);
    Instance(s, r.taskId);
    assert CellOf(s, r.taskId).awaiting == 1;
  }

  /** What a report does to memory and store, spelled out. */
  lemma ReportEffect(a: State, r: TaskResult, b: State)
    requires Known(a.jobs, r.taskId) && r.jobId == r.taskId.ns && r.taskId in a.store.tasks && r.jobId in a.store.jobs
    requires (r.status.Completed? || r.status.Failed?) && b == Complete(a, r)
    requires JobRowOk(a.jobs[r.jobId], a.store.jobs[r.jobId])
    ensures b.jobs == a.jobs[r.jobId := Recorded(a.jobs[r.jobId], r)]
    ensures b.store.tasks == a.store.tasks[r.taskId := a.store.tasks[r.taskId].(status := r.status, result := Some(r))]
    ensures r.jobId in b.store.jobs && b.store.jobs == a.store.jobs[r.jobId := b.store.jobs[r.jobId]]
    ensures JobRowOk(b.jobs[r.jobId], b.store.jobs[r.jobId])
  {
    assert a.store.jobs == a.store.jobs[r.jobId := a.store.jobs[r.jobId]];
  }

  /** A report changes one task only. */
  lemma OnlyByReport(s: Sys, r: TaskResult, s': Sys)
    requires ReportStep(s, r, s') && Known(s.state.jobs, r.taskId) && r.taskId in s.state.store.tasks
    requires r.taskId.ns in s.state.store.jobs && s.state.store.tasks[r.taskId].job == r.taskId.ns
    requires JobRowOk(s.state.jobs[r.taskId.ns], s.state.store.jobs[r.taskId.ns])
    ensures OnlyTask(s, s', r.taskId)
  {
    ReportEffect(s.state, r, s'.state);
    assert Recorded(s.state.jobs[r.jobId], r).tasks == s.state.jobs[r.jobId].tasks[r.taskId := r.status];
  }

  lemma ReportedOnly(s: Sys, r: TaskResult, s': Sys)
    requires Inv(s) && ReportStep(s, r, s')
    ensures Known(s.state.jobs, r.taskId) && OnlyTask(s, s', r.taskId)
  {
    ReportedTask(s, r, s');
    OnlyByReport(s, r, s');
  }

  /** A report finishes its task. */
  lemma ReportedCell(s: Sys, r: TaskResult, s': Sys)
    requires Inv(s) && ReportStep(s, r, s')
    ensures Known(s'.state.jobs, r.taskId) && r.taskId in s'.state.store.tasks && CellOk(r.taskId, CellOf(s', r.taskId))
  {
    ReportedTask(s, r, s');
    ReportEffect(s.state, r, s'.state);
    assert Recorded(s.state.jobs[r.jobId], r).tasks == s.state.jobs[r.jobId].tasks[r.taskId := r.status];
  }

  lemma ReportKeepsInv(s: Sys, r: TaskResult, s': Sys)
    requires Inv(s) && ReportStep(s, r, s')
    ensures Inv(s')
  {
    ReportedOnly(s, r, s');
    ReportedCell(s, r, s');
    assert JobOk(s', r.taskId.ns) by {
      ReportedTask(s, r, s');
      ReportEffect(s.state, r, s'.state);
      ReportedJob(s, s', r);
    }
    OnlyTaskKeepsInv(s, s', r.taskId);
  }

  lemma ReportedJob(s: Sys, s': Sys, r: TaskResult)
    requires Known(s.state.jobs, r.taskId) && OnlyTask(s, s', r.taskId) && (r.status.Completed? || r.status.Failed?)
    requires r.taskId in s.state.store.tasks && s.state.store.tasks[r.taskId].result.None?
    requires r.taskId.ns in s.state.store.jobs && JobOk(s, r.taskId.ns)
    requires s'.state.jobs[r.taskId.ns] == Recorded(s.state.jobs[r.taskId.ns], r)
    requires s'.state.store.tasks[r.taskId] == s.state.store.tasks[r.taskId].(status := r.status, result := Some(r))
    requires s.state.jobs[r.taskId.ns].tasks[r.taskId].Assigned?
    requires JobRowOk(s'.state.jobs[r.taskId.ns], s'.state.store.jobs[r.taskId.ns])
    ensures JobOk(s', r.taskId.ns)
  {
    var t0 := r.taskId;
    var job, job', rows, rows' := s.state.jobs[t0.ns], s'.state.jobs[t0.ns], s.state.store.tasks, s'.state.store.tasks;
    assert !AllCompleted(job.tasks);
    if r.status.Completed? {
      CompletedReport(job, job', r, rows, rows', t0.ns in s.submitted);
    } else {
      FailedReport(job, job', r, rows, rows', t0.ns in s.submitted);
      assert !AllCompleted(job'.tasks);
    }
  }

  // ----- submission

  /** The tasks of a new job have new ids, so no existing job, row or activation is concerned. */
  lemma NewIds(s: Sys, job: Uuid, dag: DagSpecification, tasks: seq<Task>)
    requires Shape(s) && job !in s.state.jobs && PossibleTasks(dag, job, tasks)
    ensures forall t :: t in TaskIds(tasks) ==> t.V5? && t.ns == job && t !in s.state.store.tasks && !Touched(s, t)
    ensures |TaskIds(tasks)| == |tasks|
  {
    TaskIdsDistinct(dag, job, tasks);
    forall t | t in TaskIds(tasks) ensures t.V5? && t.ns == job && t !in s.state.store.tasks && !Touched(s, t) {
      assert !Known(s.state.jobs, t);
    }
    var ids := seq(|tasks|, k requires 0 <= k < |tasks| => tasks[k].taskId);
    assert NoDup(ids);
    NoDupSize(ids);
    SameIds(tasks, ids);
  }

  /** A job with new, queued and held tasks has been added, and nothing else has changed. */
  ghost predicate Added(s: Sys, s': Sys, job: Uuid, ids: set<Uuid>) {
    && job !in s.state.jobs && job in s'.state.jobs
    && (forall t :: t in ids ==> t.V5? && t.ns == job && t !in s.state.store.tasks && !Touched(s, t))
    && s'.state.jobs == s.state.jobs[job := s'.state.jobs[job]]
    && AllQueued(ids, s'.state.jobs[job].tasks)
    && job in s'.state.store.jobs && s'.state.store.jobs == s.state.store.jobs[job := s'.state.store.jobs[job]]
    && RowsAdded(s.state.store.tasks, job, ids, s'.state.store.tasks)
    && HeldAnew(s, job, ids, s')
  }

  lemma AddedKnown(s: Sys, s': Sys, job: Uuid, ids: set<Uuid>)
    requires Added(s, s', job, ids)
    ensures forall t :: Known(s'.state.jobs, t) <==> Known(s.state.jobs, t) || t in ids
  {
  }

  lemma AddedRows(s: Sys, s': Sys, job: Uuid, ids: set<Uuid>)
    requires Added(s, s', job, ids) && RowsMatch(s.state.jobs, s.state.store.tasks)
    ensures RowsMatch(s'.state.jobs, s'.state.store.tasks)
  {
    AddedKnown(s, s', job, ids);
  }

  lemma AddedShape(s: Sys, s': Sys, job: Uuid, ids: set<Uuid>)
    requires Shape(s) && Added(s, s', job, ids)
    ensures Shape(s')
  {
    AddedKnown(s, s', job, ids);
    AddedRows(s, s', job, ids);
    forall t | Touched(s', t) ensures Known(s'.state.jobs, t) {
      assert t in ids || Touched(s, t);
    }
    assert s'.state.jobs.Keys == s.state.jobs.Keys + {job};
    assert s'.state.store.jobs.Keys == s.state.store.jobs.Keys + {job};
    forall j, t | j in s'.state.jobs && t in s'.state.jobs[j].tasks ensures t.V5? && t.ns == j {
      if j != job {
        assert t in s.state.jobs[j].tasks;
      }
    }
  }

  lemma AddedCells(s: Sys, s': Sys, job: Uuid, ids: set<Uuid>)
    requires Shape(s) && CellsOk(s) && Shape(s') && Added(s, s', job, ids)
    ensures CellsOk(s')
  {
    forall t | t in s'.state.store.tasks ensures CellOk(t, CellOf(s', t)) {
      if t in ids {
        assert s.dispatched[t] == 0 && s.awaiting[t] == 0 && HeldBy(s', t) == [Waiting];
      } else {
        assert t in s.state.store.tasks;
        assert CellOf(s', t) == CellOf(s, t);
      }
    }
  }

  lemma AddedOldJob(s: Sys, s': Sys, job: Uuid, ids: set<Uuid>, j: Uuid)
    requires Shape(s) && Shape(s') && Added(s, s', job, ids) && j in s.state.jobs && JobOk(s, j)
    ensures JobOk(s', j)
  {
    var state := s.state.jobs[j];
    assert s'.state.jobs[j] == state;
    forall t | t in state.tasks ensures t in s.state.store.tasks && t !in ids {
      assert Known(s.state.jobs, t);
    }
    assert ResultsOk(state, s'.state.store.tasks);
  }

  lemma SubmitNewJob(job: JobState, ids: set<Uuid>, rows: map<Uuid, TaskRow>)
    requires job.results == [] && job.status == JobAccepted && AllQueued(ids, job.tasks)
    requires job.metrics == JobMetrics(|ids|, 0, 0, |ids|)
    requires forall t :: t in ids ==> t in rows && rows[t].result.None?
    ensures StatusOk(job) && ResultsOk(job, rows) && MetricsOk(job, true)
  {
    assert CompletedTasks(job) == {} && FailedTasks(job) == {};
    assert job.tasks.Keys == ids;
    if job.tasks != map[] {
      var t :| t in job.tasks;
      assert !job.tasks[t].Completed?;
    }
  }

  lemma SubmitKeepsInv(s: Sys, job: Uuid, dag: DagSpecification, tasks: seq<Task>, s': Sys)
    requires Inv(s) && SubmitStep(s, job, dag, tasks, s')
    ensures Inv(s')
  {
    var ids := TaskIds(tasks);
    NewIds(s, job, dag, tasks);
    assert Added(s, s', job, ids);
    SubmitNewJob(s'.state.jobs[job], ids, s'.state.store.tasks);
    assert JobOk(s', job);
    AddedKeepsInv(s, s', job, ids);
  }

  lemma AddedKeepsInv(s: Sys, s': Sys, job: Uuid, ids: set<Uuid>)
    requires Inv(s) && Added(s, s', job, ids) && JobOk(s', job)
    ensures Inv(s')
  {
    AddedShape(s, s', job, ids);
    AddedCells(s, s', job, ids);
    forall j | j in s'.state.jobs ensures JobOk(s', j) {
      if j != job {
        assert JobOk(s, j);
        AddedOldJob(s, s', job, ids, j);
      }
    }
  }

  // ----- recovery

  /** The completed results of job `j` among the given rows, in row order. */
  function StoredResults(store: Store, rows: seq<Uuid>, j: Uuid): seq<TaskResult>
    requires forall t :: t in rows ==> t in store.tasks
  {
    if rows == [] then []
    else
      var row := store.tasks[rows[|rows| - 1]];
      StoredResults(store, rows[..|rows| - 1], j) + (if row.job == j then CompletedResult(row) else [])
  }

  /** What start-up makes of a stored job. */
  lemma {:induction false} RecoveredJob(store: Store, rows: seq<Uuid>, j: Uuid)
    requires (forall t :: t in rows ==> t in store.tasks) && j in store.jobs
    ensures j in RecoverJobs(store, rows)
    ensures var job := RecoverJobs(store, rows)[j];
            && job == JobState(store.jobs[j].dag, store.jobs[j].status, job.tasks, StoredResults(store, rows, j),
                               NO_METRICS, None)
            && (forall t :: t in job.tasks <==> t in rows && store.tasks[t].job == j)
            && forall t :: t in job.tasks ==> job.tasks[t] == Requeued(store.tasks[t].status)
  {
    if rows == [] {
    } else {
      var init, t := rows[..|rows| - 1], rows[|rows| - 1];
      assert rows == init + [t];
      RecoveredJob(store, init, j);
    }
  }

  lemma {:induction false} RecoveredKeys(store: Store, rows: seq<Uuid>)
    requires forall t :: t in rows ==> t in store.tasks && store.tasks[t].job in store.jobs
    ensures RecoverJobs(store, rows).Keys == store.jobs.Keys
  {
    if rows == [] {
    } else {
      RecoveredKeys(store, rows[..|rows| - 1]);
      assert rows[|rows| - 1] in rows;
    }
  }

  lemma {:induction false} StoredResultsMembers(store: Store, rows: seq<Uuid>, j: Uuid, r: TaskResult)
    requires forall t :: t in rows ==> t in store.tasks
    ensures r in StoredResults(store, rows, j) <==>
            exists t :: t in rows && store.tasks[t].job == j && store.tasks[t].result == Some(r) && r.status.Completed?
  {
    if rows == [] {
    } else {
      var init, t := rows[..|rows| - 1], rows[|rows| - 1];
      assert rows == init + [t];
      StoredResultsMembers(store, init, j, r);
    }
  }

  /** Stored results carry the id of their row. */
  ghost predicate ResultsTagged(store: Store) {
    forall t :: t in store.tasks && store.tasks[t].result.Some? ==> store.tasks[t].result.value.taskId == t
  }

  lemma {:induction false} StoredResultsNoDup(store: Store, rows: seq<Uuid>, j: Uuid)
    requires forall t :: t in rows ==> t in store.tasks
    requires NoDup(rows) && ResultsTagged(store)
    ensures NoDup(StoredResults(store, rows, j))
  {
    if rows == [] {
    } else {
      var init, t := rows[..|rows| - 1], rows[|rows| - 1];
      StoredResultsNoDup(store, init, j);
      var more := CompletedResult(store.tasks[t]);
      if store.tasks[t].job == j && more != [] {
        StoredResultsMembers(store, init, j, more[0]);
        assert t !in init;
        assert more == [more[0]];
      }
    }
  }

  lemma StoreIsTagged(s: Sys)
    requires Inv(s)
    ensures ResultsTagged(s.state.store)
  {
    forall t | t in s.state.store.tasks && s.state.store.tasks[t].result.Some?
      ensures s.state.store.tasks[t].result.value.taskId == t
    {
      Instance(s, t);
    }
  }

  /** The job a crash at this point would leave behind. */
  ghost function AfterCrash(s: Sys, rows: seq<Uuid>, j: Uuid): JobState
    requires (forall t :: t in rows ==> t in s.state.store.tasks) && j in s.state.store.jobs
  {
    RecoveredJob(s.state.store, rows, j);
    RecoverJobs(s.state.store, rows)[j]
  }

  lemma RowsListed(s: Sys, rows: seq<Uuid>)
    requires Enumerates(rows, s.state.store)
    ensures forall t :: t in rows <==> t in s.state.store.tasks
  {
    assert forall t :: t in rows <==> t in Elems(rows);
  }

  /** Memory and store requeue to the same status, even between the two writes of an assignment. */
  lemma RequeuedAgree(s: Sys, t: Uuid)
    requires Inv(s) && Known(s.state.jobs, t)
    ensures t in s.state.store.tasks
    ensures Requeued(s.state.store.tasks[t].status) == Requeued(s.state.jobs[t.ns].tasks[t])
  {
    Instance(s, t);
  }

  /**
   Start-up after a crash gives each job its status, its tasks with in-flight ones queued, and its completed results.
   */
  lemma RecoveryIsFaithful(s: Sys, rows: seq<Uuid>, j: Uuid)
    requires Inv(s) && Enumerates(rows, s.state.store) && j in s.state.jobs
    ensures (forall t :: t in rows ==> t in s.state.store.tasks) && j in s.state.store.jobs
    ensures var was, now := s.state.jobs[j], AfterCrash(s, rows, j);
            && now.dag == was.dag && now.status == was.status
            && now.tasks.Keys == was.tasks.Keys
            && (forall t :: t in was.tasks ==> now.tasks[t] == Requeued(was.tasks[t]))
            && multiset(now.results) == multiset(was.results)
  {
    RowsListed(s, rows);
    assert JobOk(s, j);
    RecoveredJob(s.state.store, rows, j);
    var was, now := s.state.jobs[j], AfterCrash(s, rows, j);
    RecoveredTasks(s, rows, j);
    StoreIsTagged(s);
    StoredResultsNoDup(s.state.store, rows, j);
    RecoveredResults(s, rows, j);
    assert Elems(now.results) == Elems(was.results);
    NoDupMultiset(now.results, was.results);
  }

  lemma RecoveredTasks(s: Sys, rows: seq<Uuid>, j: Uuid)
    requires Inv(s) && Enumerates(rows, s.state.store) && j in s.state.jobs
    requires (forall t :: t in rows <==> t in s.state.store.tasks) && j in s.state.store.jobs
    ensures AfterCrash(s, rows, j).tasks.Keys == s.state.jobs[j].tasks.Keys
    ensures forall t :: t in s.state.jobs[j].tasks ==>
            AfterCrash(s, rows, j).tasks[t] == Requeued(s.state.jobs[j].tasks[t])
  {
    RecoveredJob(s.state.store, rows, j);
    var was, now := s.state.jobs[j], AfterCrash(s, rows, j);
    forall t ensures t in now.tasks <==> t in was.tasks {
      assert t in s.state.store.tasks <==> Known(s.state.jobs, t);
    }
    forall t | t in was.tasks ensures now.tasks[t] == Requeued(was.tasks[t]) {
      assert Known(s.state.jobs, t);
      RequeuedAgree(s, t);
    }
  }

  lemma RecoveredResults(s: Sys, rows: seq<Uuid>, j: Uuid)
    requires Inv(s) && Enumerates(rows, s.state.store) && j in s.state.jobs
    requires (forall t :: t in rows <==> t in s.state.store.tasks) && j in s.state.store.jobs
    ensures forall r :: r in AfterCrash(s, rows, j).results <==> r in s.state.jobs[j].results
  {
    RecoveredJob(s.state.store, rows, j);
    StoreIsTagged(s);
    assert JobOk(s, j);
    var was, store := s.state.jobs[j], s.state.store;
    forall r ensures r in StoredResults(store, rows, j) <==> r in was.results {
      StoredResultsMembers(store, rows, j, r);
      if r in was.results {
        assert Known(s.state.jobs, r.taskId);
      }
      if r in StoredResults(store, rows, j) {
        var t :| t in rows && store.tasks[t].job == j && store.tasks[t].result == Some(r) && r.status.Completed?;
        assert r.taskId == t && Known(s.state.jobs, t);
      }
    }
  }

  /** The tasks of a recovered job are the stored tasks of that job. */
  lemma CrashTasks(s: Sys, s': Sys, rows: seq<Uuid>, j: Uuid)
    requires Inv(s) && CrashStep(s, rows, s') && j in s.state.jobs
    ensures j in s'.state.jobs && forall t :: t in s'.state.jobs[j].tasks <==> Known(s.state.jobs, t) && t.ns == j
  {
    RowsListed(s, rows);
    RecoveredJob(s.state.store, rows, j);
    forall t ensures t in s'.state.jobs[j].tasks <==> Known(s.state.jobs, t) && t.ns == j {
      assert t in s.state.store.tasks <==> Known(s.state.jobs, t);
      if t in s.state.store.tasks {
        assert s.state.store.tasks[t].job == t.ns;
      }
    }
  }

  lemma CrashKeys(s: Sys, s': Sys, rows: seq<Uuid>)
    requires Inv(s) && CrashStep(s, rows, s')
    ensures s'.state.jobs.Keys == s.state.jobs.Keys == s'.state.store.jobs.Keys
  {
    RowsListed(s, rows);
    forall t | t in rows ensures s.state.store.tasks[t].job in s.state.store.jobs {
      assert Known(s.state.jobs, t) && s.state.store.tasks[t].job == t.ns;
      assert t.ns in s.state.jobs.Keys;
    }
    RecoveredKeys(s.state.store, rows);
  }

  lemma CrashShape(s: Sys, s': Sys, rows: seq<Uuid>)
    requires Inv(s) && CrashStep(s, rows, s')
    ensures Shape(s')
  {
    CrashKeys(s, s', rows);
    forall j | j in s'.state.jobs
      ensures forall t :: t in s'.state.jobs[j].tasks <==> Known(s.state.jobs, t) && t.ns == j
    {
      CrashTasks(s, s', rows, j);
    }
    assert OwnTasks(s'.state.jobs);
    forall t ensures Known(s'.state.jobs, t) <==> Known(s.state.jobs, t) {
    }
    assert RowsMatch(s'.state.jobs, s'.state.store.tasks);
    assert TouchedKnown(s');
  }

  lemma CrashCells(s: Sys, s': Sys, rows: seq<Uuid>)
    requires Inv(s) && CrashStep(s, rows, s') && Shape(s')
    ensures CellsOk(s')
  {
    RowsListed(s, rows);
    forall t | t in s'.state.store.tasks ensures CellOk(t, CellOf(s', t)) {
      Instance(s, t);
      RecoveredJob(s.state.store, rows, t.ns);
    }
  }

  lemma CrashJob(s: Sys, s': Sys, rows: seq<Uuid>, j: Uuid)
    requires Inv(s) && CrashStep(s, rows, s') && Shape(s') && j in s'.state.jobs
    ensures JobOk(s', j)
  {
    RowsListed(s, rows);
    assert j in s.state.jobs;
    RecoveryIsFaithful(s, rows, j);
    RecoveredJob(s.state.store, rows, j);
    assert JobOk(s, j);
    var was, now := s.state.jobs[j], s'.state.jobs[j];
    StoreIsTagged(s);
    StoredResultsNoDup(s.state.store, rows, j);
    RecoveredResults(s, rows, j);
    assert ResultsOk(now, s'.state.store.tasks);
    CrashStatus(was, now);
  }

  lemma CrashStatus(was: JobState, now: JobState)
    requires StatusOk(was) && now.status == was.status && now.tasks.Keys == was.tasks.Keys
    requires forall t :: t in was.tasks ==> now.tasks[t] == Requeued(was.tasks[t])
    ensures StatusOk(now)
  {
    assert AllCompleted(was.tasks) <==> AllCompleted(now.tasks);
  }

  lemma CrashKeepsInv(s: Sys, rows: seq<Uuid>, s': Sys)
    requires Inv(s) && CrashStep(s, rows, s')
    ensures Inv(s')
  {
    CrashShape(s, s', rows);
    CrashCells(s, s', rows);
    forall j | j in s'.state.jobs ensures JobOk(s', j) {
      CrashJob(s, s', rows, j);
    }
  }

  // ----- runs

  /** Every step of the machine keeps the invariant, as long as passes take only tasks that nobody holds. */
  lemma StepKeepsInv(s: Sys, step: Step, s': Sys)
    requires Inv(s) && Careful(s, step) && Next(s, step, s')
    ensures Inv(s')
  {
    match step
    case Submit(job, dag, tasks) => SubmitKeepsInv(s, job, dag, tasks, s');
    case BeginPass(queued) => BeginKeepsInv(s, queued, s');
    case Choose(t, i, w) => ChooseKeepsInv(s, t, i, w, s');
    case WriteMemory(t, i) => WriteMemoryKeepsInv(s, t, i, s');
    case WriteStore(t, i) => WriteStoreKeepsInv(s, t, i, s');
    case Mark(t, i) => MarkKeepsInv(s, t, i, s');
    case Send(t, i, known) => SendKeepsInv(s, t, i, known, s');
    case Report(r) => ReportKeepsInv(s, r, s');
    case Crash(rows) => CrashKeepsInv(s, rows, s');
  }

  /** `run` goes through the machine by `steps`. */
  ghost predicate Trace(run: seq<Sys>, steps: seq<Step>) {
    |run| == |steps| + 1 && forall i :: 0 <= i < |steps| ==> Next(run[i], steps[i], run[i + 1])
  }

  /** No pass takes a task that another one holds. */
  ghost predicate CarefulTrace(run: seq<Sys>, steps: seq<Step>) {
    Trace(run, steps) && forall i :: 0 <= i < |steps| ==> Careful(run[i], steps[i])
  }

  /** A careful run from an empty master. */
  ghost predicate CleanRun(run: seq<Sys>, steps: seq<Step>) {
    CarefulTrace(run, steps) && run[0] == EMPTY
  }

  lemma {:induction false} TraceKeepsInv(run: seq<Sys>, steps: seq<Step>, i: nat)
    requires CarefulTrace(run, steps) && Inv(run[0]) && i < |run|
    ensures Inv(run[i])
  {
    if i > 0 {
      TraceKeepsInv(run, steps, i - 1);
      assert Next(run[i - 1], steps[i - 1], run[i - 1 + 1]);
      StepKeepsInv(run[i - 1], steps[i - 1], run[i]);
    }
  }

  lemma RunKeepsInv(run: seq<Sys>, steps: seq<Step>, i: nat)
    requires CleanRun(run, steps) && i < |run|
    ensures Inv(run[i])
  {
    EmptyInv();
    TraceKeepsInv(run, steps, i);
  }

  /**
   In every reachable state at most one activation holds a task, and it was dispatched at most once in this master
   lifetime.
   */
  lemma DispatchedAtMostOnce(run: seq<Sys>, steps: seq<Step>, i: nat, t: Uuid)
    requires CleanRun(run, steps) && i < |run|
    ensures run[i].dispatched[t] <= 1 && |HeldBy(run[i], t)| <= 1
    ensures t in run[i].dispatched ==> Known(run[i].state.jobs, t) && run[i].state.jobs[t.ns].tasks[t] != Queued
  {
    RunKeepsInv(run, steps, i);
    InvMeansOnce(run[i], t);
  }

  lemma InvMeansOnce(s: Sys, t: Uuid)
    requires Inv(s)
    ensures s.dispatched[t] <= 1 && |HeldBy(s, t)| <= 1
    ensures t in s.dispatched ==> Known(s.state.jobs, t) && s.state.jobs[t.ns].tasks[t] != Queued
  {
    if Touched(s, t) {
      Instance(s, t);
    }
  }

  /** In every reachable state a job with tasks has succeeded exactly when all of them are completed. */
  lemma SucceededIffAllCompleted(run: seq<Sys>, steps: seq<Step>, i: nat, j: Uuid)
    requires CleanRun(run, steps) && i < |run|
    requires j in run[i].state.jobs && run[i].state.jobs[j].tasks != map[]
    ensures run[i].state.jobs[j].status == JobSucceeded <==> AllCompleted(run[i].state.jobs[j].tasks)
  {
    RunKeepsInv(run, steps, i);
    assert JobOk(run[i], j);
  }

  /** In every reachable state the results are those of the completed tasks, one each. */
  lemma OneResultPerCompletedTask(run: seq<Sys>, steps: seq<Step>, i: nat, j: Uuid)
    requires CleanRun(run, steps) && i < |run| && j in run[i].state.jobs
    ensures var job := run[i].state.jobs[j];
            |job.results| == |CompletedTasks(job)| && forall r :: r in job.results ==> r.taskId in CompletedTasks(job)
  {
    var s := run[i];
    RunKeepsInv(run, steps, i);
    assert JobOk(s, j);
    ResultsCount(s, j);
  }

  lemma ResultTask(s: Sys, j: Uuid, r: TaskResult)
    requires Inv(s) && j in s.state.jobs && r in s.state.jobs[j].results
    ensures r.taskId in CompletedTasks(s.state.jobs[j]) && r.taskId in s.state.store.tasks &&
            s.state.store.tasks[r.taskId].result == Some(r)
  {
    assert JobOk(s, j);
    assert Known(s.state.jobs, r.taskId);
    Instance(s, r.taskId);
  }

  lemma TaskResultOf(s: Sys, j: Uuid, t: Uuid) returns (r: TaskResult)
    requires Inv(s) && j in s.state.jobs && t in CompletedTasks(s.state.jobs[j])
    ensures r in s.state.jobs[j].results && r.taskId == t
  {
    assert JobOk(s, j);
    assert Known(s.state.jobs, t);
    Instance(s, t);
    r := s.state.store.tasks[t].result.value;
  }

  ghost predicate HasResult(results: seq<TaskResult>, t: Uuid) {
    exists r :: r in results && r.taskId == t
  }

  /** Results that correspond one to one to tasks are as many as the tasks. */
  lemma OneToOne(results: seq<TaskResult>, done: set<Uuid>)
    requires forall a, b :: 0 <= a < b < |results| ==> results[a].taskId != results[b].taskId
    requires forall r :: r in results ==> r.taskId in done
    requires forall t :: t in done ==> HasResult(results, t)
    ensures |results| == |done|
  {
    var ids := seq(|results|, k requires 0 <= k < |results| => results[k].taskId);
    NoDupSize(ids);
    forall t | t in done ensures t in Elems(ids) {
      var r :| r in results && r.taskId == t;
      var k :| 0 <= k < |results| && results[k] == r;
      assert ids[k] == t;
    }
    assert Elems(ids) == done;
  }

  lemma ResultsCount(s: Sys, j: Uuid)
    requires Inv(s) && j in s.state.jobs
    ensures var job := s.state.jobs[j];
            |job.results| == |CompletedTasks(job)| && forall r :: r in job.results ==> r.taskId in CompletedTasks(job)
  {
    var job := s.state.jobs[j];
    assert NoDup(job.results) by { assert JobOk(s, j); }
    forall r | r in job.results ensures r.taskId in CompletedTasks(job) {
      ResultTask(s, j, r);
    }
    forall a, b | 0 <= a < b < |job.results| ensures job.results[a].taskId != job.results[b].taskId {
      ResultTask(s, j, job.results[a]);
      ResultTask(s, j, job.results[b]);
    }
    forall t | t in CompletedTasks(job) ensures HasResult(job.results, t) {
      var r := TaskResultOf(s, j, t);
    }
    OneToOne(job.results, CompletedTasks(job));
  }

  /** Whenever the master crashes in a clean run, start-up rebuilds what memory held, with in-flight tasks queued. */
  lemma CrashAnywhere(run: seq<Sys>, steps: seq<Step>, i: nat, rows: seq<Uuid>, j: Uuid)
    requires CleanRun(run, steps) && i < |run|
    requires Enumerates(rows, run[i].state.store) && j in run[i].state.jobs
    ensures (forall t :: t in rows ==> t in run[i].state.store.tasks) && j in run[i].state.store.jobs
    ensures var was, now := run[i].state.jobs[j], AfterCrash(run[i], rows, j);
            && now.dag == was.dag && now.status == was.status
            && now.tasks.Keys == was.tasks.Keys
            && (forall t :: t in was.tasks ==> now.tasks[t] == Requeued(was.tasks[t]))
            && multiset(now.results) == multiset(was.results)
  {
    RunKeepsInv(run, steps, i);
    RecoveryIsFaithful(run[i], rows, j);
  }

  /** Recovering from any store, and again from the store recovery leaves behind, gives the same jobs and store. */
  lemma {:induction false} RecoveringTwice(store: Store, rows: seq<Uuid>)
    requires forall t :: t in rows ==> t in store.tasks
    ensures RecoverJobs(RequeueStore(store), rows) == RecoverJobs(store, rows)
    ensures RequeueStore(RequeueStore(store)) == RequeueStore(store)
  {
    if rows == [] {
    } else {
      RecoveringTwice(store, rows[..|rows| - 1]);
      assert rows[|rows| - 1] in rows;
    }
  }

  // ----- counters

  function Progress(m: JobMetrics): real {
    if m.total == 0 then 0.0 else m.completed as real / m.total as real * 100.0
  }

  /** Counters add up exactly for jobs submitted in this lifetime and for recovered jobs without a report. */
  lemma CountersConservedIff(run: seq<Sys>, steps: seq<Step>, i: nat, j: Uuid)
    requires CleanRun(run, steps) && i < |run| && j in run[i].state.jobs
    ensures var m := run[i].state.jobs[j].metrics;
            Conserved(m) <==> j in run[i].submitted || m.completed + m.failed == 0
  {
    RunKeepsInv(run, steps, i);
    assert JobOk(run[i], j);
  }

  /** For a job submitted in this lifetime, the counters count its tasks and results. */
  lemma CountersCount(run: seq<Sys>, steps: seq<Step>, i: nat, j: Uuid)
    requires CleanRun(run, steps) && i < |run| && j in run[i].state.jobs && j in run[i].submitted
    ensures var job := run[i].state.jobs[j];
            && job.metrics.total == |job.tasks|
            && job.metrics.completed == |CompletedTasks(job)| == |job.results|
            && job.metrics.failed == |FailedTasks(job)|
            && job.metrics.completed + job.metrics.failed + job.metrics.pending == job.metrics.total
  {
    RunKeepsInv(run, steps, i);
    assert JobOk(run[i], j);
    ResultsCount(run[i], j);
  }

  /** Progress never exceeds 100, also after a restart, where it stays 0. */
  lemma ProgressBounded(run: seq<Sys>, steps: seq<Step>, i: nat, j: Uuid)
    requires CleanRun(run, steps) && i < |run| && j in run[i].state.jobs
    ensures 0.0 <= Progress(run[i].state.jobs[j].metrics) <= 100.0
    ensures j !in run[i].submitted ==> Progress(run[i].state.jobs[j].metrics) == 0.0
  {
    RunKeepsInv(run, steps, i);
    assert JobOk(run[i], j);
    var m := run[i].state.jobs[j].metrics;
    if m.total > 0 {
      assert m.completed <= m.total;
      RatioBounded(m.completed as real, m.total as real);
    }
  }

  /** Progress is the completed share of the tasks in percent, and 100 exactly when all are completed. */
  ghost predicate ProgressTellsShare(job: JobState) {
    var done := set t | t in job.tasks && job.tasks[t] == Completed;
    && Progress(job.metrics) * |job.tasks| as real == 100.0 * |done| as real
    && (Progress(job.metrics) == 100.0 <==> forall t :: t in job.tasks ==> job.tasks[t] == Completed)
  }

  /** For a job with tasks that was submitted in this lifetime, progress tells the completed share. */
  lemma ProgressIsShare(run: seq<Sys>, steps: seq<Step>, i: nat, j: Uuid)
    requires CleanRun(run, steps) && i < |run| && j in run[i].state.jobs && j in run[i].submitted
    requires run[i].state.jobs[j].tasks != map[]
    ensures ProgressTellsShare(run[i].state.jobs[j])
  {
    RunKeepsInv(run, steps, i);
    assert JobOk(run[i], j);
    ShareOfJob(run[i].state.jobs[j]);
  }

  lemma ShareOfJob(job: JobState)
    requires job.tasks != map[] && job.metrics.total == |job.tasks| && job.metrics.completed == |CompletedTasks(job)|
    ensures ProgressTellsShare(job)
  {
    var done := set t | t in job.tasks && job.tasks[t] == Completed;
    assert done == CompletedTasks(job);
    ShareOf(|done|, |job.tasks|);
    AllOrFewer(done, job.tasks.Keys);
  }

  lemma ShareOf(a: nat, b: nat)
    requires 0 < b
    ensures a as real / b as real * 100.0 * b as real == 100.0 * a as real
    ensures a as real / b as real * 100.0 == 100.0 <==> a == b
  {
    var q := a as real / b as real;
    assert q * b as real == a as real;
    assert q * 100.0 * b as real == q * b as real * 100.0;
    if q * 100.0 == 100.0 {
      assert q == 1.0;
    }
  }

  /** A subset is the whole set exactly when it has as many elements. */
  lemma AllOrFewer<T>(a: set<T>, b: set<T>)
    requires a <= b
    ensures |a| == |b| <==> a == b
  {
    assert b == a + (b - a);
    assert |b| == |a| + |b - a|;
  }

  lemma RatioBounded(a: real, b: real)
    requires 0.0 <= a <= b && 0.0 < b
    ensures 0.0 <= a / b <= 1.0
  {
  }

  // ----- overlapping passes

  /** None of the steps begins a pass. */
  ghost predicate NoPass(steps: seq<Step>) {
    forall i :: 0 <= i < |steps| ==> !steps[i].BeginPass?
  }

  /** The rest of an activation once a worker is chosen, whatever other activations hold the task. */
  lemma AssignAndSend(s: Sys, t: Uuid, w: WorkerId, rest: seq<Phase>) returns (run: seq<Sys>, steps: seq<Step>)
    requires t.V5? && HeldBy(s, t) == [Chosen(w)] + rest
    ensures Trace(run, steps) && run[0] == s && NoPass(steps)
    ensures var last := run[|run| - 1];
            && HeldBy(last, t) == rest && last.submitted == s.submitted
            && last.dispatched == s.dispatched + multiset{t} && last.awaiting == s.awaiting + multiset{t}
  {
    var b := WithPhase(s, t, 0, InMemory(w)).(state := AssignInMemory(s.state, t.ns, t, w));
    assert HeldBy(b, t) == [InMemory(w)] + rest;
    var c := WithPhase(b, t, 0, InStore(w)).(state := AssignInStore(b.state, t.ns, t, w));
    assert HeldBy(c, t) == [InStore(w)] + rest;
    var d := WithPhase(c, t, 0, Marked(w)).(state := MarkRunning(c.state, t.ns));
    assert HeldBy(d, t) == [Marked(w)] + rest;
    var e := WithoutPhase(d, t, 0).(dispatched := d.dispatched + multiset{t}, awaiting := d.awaiting + multiset{t});
    assert HeldBy(e, t) == rest;
    run, steps := [s, b, c, d, e], [WriteMemory(t, 0), WriteStore(t, 0), Mark(t, 0), Send(t, 0, true)];
    assert WriteMemoryStep(s, t, 0, b);
    assert WriteStoreStep(b, t, 0, c);
    assert MarkStep(c, t, 0, d);
    assert SendStep(d, t, 0, true, e);
  }

  /** The first activation of a task, run from where it waits or has chosen to the dispatch. */
  lemma Activation(s: Sys, t: Uuid, p: Phase, rest: seq<Phase>) returns (run: seq<Sys>, steps: seq<Step>)
    requires t.V5? && HeldBy(s, t) == [p] + rest && (p.Waiting? || p.Chosen?)
    ensures Trace(run, steps) && run[0] == s && NoPass(steps)
    ensures var last := run[|run| - 1];
            && HeldBy(last, t) == rest && last.submitted == s.submitted
            && last.dispatched == s.dispatched + multiset{t} && last.awaiting == s.awaiting + multiset{t}
  {
    if p.Chosen? {
      run, steps := AssignAndSend(s, t, p.worker, rest);
    } else {
      var w: WorkerId := 0;
      var a := WithPhase(s, t, 0, Chosen(w));
      assert HeldBy(a, t) == [Chosen(w)] + rest;
      assert ChooseStep(s, t, 0, Some(w), a);
      var r1, s1 := AssignAndSend(a, t, w, rest);
      TraceJoin([s, a], [Choose(t, 0, Some(w))], r1, s1);
      run, steps := [s, a] + r1[1..], [Choose(t, 0, Some(w))] + s1;
    }
  }

  lemma TraceJoin(r1: seq<Sys>, s1: seq<Step>, r2: seq<Sys>, s2: seq<Step>)
    requires Trace(r1, s1) && Trace(r2, s2) && r1[|r1| - 1] == r2[0]
    ensures Trace(r1 + r2[1..], s1 + s2)
  {
    var run, steps := r1 + r2[1..], s1 + s2;
    forall i | 0 <= i < |steps| ensures Next(run[i], steps[i], run[i + 1]) {
      if i < |s1| {
        assert Next(r1[i], s1[i], r1[i + 1]);
      } else {
        assert Next(r2[i - |s1|], s2[i - |s1|], r2[i - |s1| + 1]);
      }
    }
  }

  /** Two activations that wait or have chosen, one after the other. */
  lemma BothSend(s: Sys, t: Uuid, p: Phase, q: Phase) returns (run: seq<Sys>, steps: seq<Step>)
    requires t.V5? && HeldBy(s, t) == [p] + [q] && (p.Waiting? || p.Chosen?) && (q.Waiting? || q.Chosen?)
    ensures Trace(run, steps) && run[0] == s && NoPass(steps)
    ensures run[|run| - 1].dispatched[t] == s.dispatched[t] + 2
  {
    var r1, s1 := Activation(s, t, p, [q]);
    var mid := r1[|r1| - 1];
    assert HeldBy(mid, t) == [q] + [];
    var r2, s2 := Activation(mid, t, q, []);
    TraceJoin(r1, s1, r2, s2);
    run, steps := r1 + r2[1..], s1 + s2;
    assert run[|run| - 1] == r2[|r2| - 1];
  }

  /** A pass that takes a task another activation holds can lead to a second dispatch, with no further pass. */
  lemma CarelessPassDispatchesTwice(s: Sys, queued: seq<Uuid>, s': Sys, t: Uuid)
    returns (run: seq<Sys>, steps: seq<Step>)
    requires Inv(s) && BeginStep(s, queued, s') && t in queued && HeldBy(s, t) != []
    ensures Trace(run, steps) && run[0] == s' && NoPass(steps)
    ensures run[|run| - 1].dispatched[t] >= 2
  {
    Instance(s, t);
    var p := HeldBy(s, t)[0];
    assert HeldBy(s, t) == [p];
    run, steps := BothSend(s', t, p, Waiting);
  }

  /** A pass that begins while a submission is still at work can dispatch one of its tasks a second time. */
  lemma PassDuringSubmission(s: Sys, job: Uuid, dag: DagSpecification, tasks: seq<Task>, s': Sys, t: Uuid, s'': Sys)
    returns (run: seq<Sys>, steps: seq<Step>)
    requires Inv(s) && SubmitStep(s, job, dag, tasks, s') && t in TaskIds(tasks) && BeginStep(s', [t], s'')
    ensures Trace(run, steps) && run[0] == s'' && NoPass(steps)
    ensures run[|run| - 1].dispatched[t] >= 2
  {
    SubmitKeepsInv(s, job, dag, tasks, s');
    run, steps := CarelessPassDispatchesTwice(s', [t], s'', t);
  }

  ghost predicate AtMostOnce(s: Sys) {
    forall t :: s.dispatched[t] <= 1
  }

  /** Whatever careful steps follow, no task is dispatched twice. */
  ghost predicate SafeFrom(s: Sys) {
    forall run, steps :: CarefulTrace(run, steps) && run[0] == s ==> forall i :: 0 <= i < |run| ==> AtMostOnce(run[i])
  }

  /** A pass that begins is safe exactly when it takes no task that is still held. */
  lemma PassIsSafeIff(s: Sys, queued: seq<Uuid>, s': Sys)
    requires Inv(s) && BeginStep(s, queued, s')
    ensures SafeFrom(s') <==> Careful(s, BeginPass(queued))
  {
    if Careful(s, BeginPass(queued)) {
      StepKeepsInv(s, BeginPass(queued), s');
      forall run: seq<Sys>, steps: seq<Step>, i | CarefulTrace(run, steps) && run[0] == s' && 0 <= i < |run|
        ensures AtMostOnce(run[i])
      {
        TraceKeepsInv(run, steps, i);
        forall t ensures run[i].dispatched[t] <= 1 {
          InvMeansOnce(run[i], t);
        }
      }
    } else {
      var t :| t in queued && HeldBy(s, t) != [];
      var run, steps := CarelessPassDispatchesTwice(s, queued, s', t);
      assert CarefulTrace(run, steps);
      assert !AtMostOnce(run[|run| - 1]);
    }
  }

  /** `t` is a known task that is not queued. */
  ghost predicate Taken(s: Sys, t: Uuid) {
    Known(s.state.jobs, t) && s.state.jobs[t.ns].tasks[t] != Queued
  }

  lemma WriteKeepsTaken(s: Sys, u: Uuid, i: nat, s': Sys, t: Uuid)
    requires WriteMemoryStep(s, u, i, s') && Taken(s, t)
    ensures Taken(s', t)
  {
  }

  lemma RecordingKeepsTaken(s: Sys, r: TaskResult, s': Sys, t: Uuid)
    requires ReportStep(s, r, s') && Known(s.state.jobs, r.taskId) && Taken(s, t)
    ensures Taken(s', t)
  {
    assert Recorded(s.state.jobs[r.jobId], r).tasks == s.state.jobs[r.jobId].tasks[r.taskId := r.status];
  }

  lemma ReportKeepsTaken(s: Sys, r: TaskResult, s': Sys, t: Uuid)
    requires Inv(s) && ReportStep(s, r, s') && Taken(s, t)
    ensures Taken(s', t)
  {
    assert Touched(s, r.taskId);
    RecordingKeepsTaken(s, r, s', t);
  }

  lemma SubmitKeepsTaken(s: Sys, job: Uuid, dag: DagSpecification, tasks: seq<Task>, s': Sys, t: Uuid)
    requires SubmitStep(s, job, dag, tasks, s') && Taken(s, t)
    ensures Taken(s', t)
  {
  }

  /** Only a restart makes a task queued again: a lost worker's tasks are never handed to another one. */
  lemma OnlyRestartRequeues(s: Sys, step: Step, s': Sys, t: Uuid)
    requires Inv(s) && Next(s, step, s') && !step.Crash? && Taken(s, t)
    ensures Taken(s', t)
  {
    match step
    case Submit(job, dag, tasks) => SubmitKeepsTaken(s, job, dag, tasks, s', t);
    case WriteMemory(u, i) => WriteKeepsTaken(s, u, i, s', t);
    case Report(r) => ReportKeepsTaken(s, r, s', t);
    case BeginPass(_) => assert s'.state == s.state;
    case Choose(_, _, _) => assert s'.state == s.state;
    case WriteStore(_, _) => assert s'.state.jobs == s.state.jobs;
    case Mark(u, i) => MarkKeepsTaken(s, u, i, s', t);
    case Send(_, _, _) => assert s'.state == s.state;
  }

  lemma MarkKeepsTaken(s: Sys, u: Uuid, i: nat, s': Sys, t: Uuid)
    requires MarkStep(s, u, i, s') && Taken(s, t)
    ensures Taken(s', t)
  {
  }

  // ----- counters after a restart

  ghost predicate Conserved(m: JobMetrics) {
    m.completed + m.failed + m.pending == m.total
  }

  lemma CarefulJoin(r1: seq<Sys>, s1: seq<Step>, r2: seq<Sys>, s2: seq<Step>)
    requires CarefulTrace(r1, s1) && CarefulTrace(r2, s2) && r1[|r1| - 1] == r2[0]
    ensures CarefulTrace(r1 + r2[1..], s1 + s2) && (r1 + r2[1..])[0] == r1[0]
    ensures (r1 + r2[1..])[|r1 + r2[1..]| - 1] == r2[|r2| - 1]
  {
    TraceJoin(r1, s1, r2, s2);
    var run, steps := r1 + r2[1..], s1 + s2;
    forall i | 0 <= i < |steps| ensures Careful(run[i], steps[i]) {
      if i < |s1| {
        assert Careful(r1[i], s1[i]);
      } else {
        assert Careful(r2[i - |s1|], s2[i - |s1|]);
      }
    }
  }

  /** A pass takes one free queued task up to its dispatch. */
  lemma DispatchOne(s: Sys, t: Uuid) returns (run: seq<Sys>, steps: seq<Step>)
    requires Known(s.state.jobs, t) && s.state.jobs[t.ns].tasks[t] == Queued && HeldBy(s, t) == []
    ensures CarefulTrace(run, steps) && run[0] == s
    ensures t in run[|run| - 1].awaiting && run[|run| - 1].submitted == s.submitted
  {
    var a := s.(held := s.held[t := [Waiting]]);
    assert HeldBy(s, t) + [Waiting] == [Waiting];
    assert BeginStep(s, [t], a);
    assert HeldBy(a, t) == [Waiting] + [];
    var r1, s1 := Activation(a, t, Waiting, []);
    assert CarefulTrace([s, a], [BeginPass([t])]);
    CarefulJoin([s, a], [BeginPass([t])], r1, s1);
    run, steps := [s, a] + r1[1..], [BeginPass([t])] + s1;
  }

  /** Reporting a task of a recovered job counts it against a total of zero. */
  lemma ReportOnRecovered(s: Sys, t: Uuid) returns (r: TaskResult, s': Sys)
    requires Inv(s) && t in s.awaiting && t.V5? && t.ns !in s.submitted
    ensures ReportStep(s, r, s') && t.ns in s'.state.jobs && !Conserved(s'.state.jobs[t.ns].metrics)
  {
    r := TaskResult(t, t.ns, Completed, "");
    s' := s.(state := Complete(s.state, r), awaiting := s.awaiting - multiset{t});
    ReportedTask(s, r, s');
    ReportEffect(s.state, r, s'.state);
    assert MetricsOk(s.state.jobs[t.ns], false);
  }

  /** One careful step, as a run. */
  lemma OneStep(s: Sys, step: Step, s': Sys) returns (run: seq<Sys>, steps: seq<Step>)
    requires Next(s, step, s') && Careful(s, step)
    ensures run == [s, s'] && steps == [step] && CarefulTrace(run, steps)
  {
    run, steps := [s, s'], [step];
  }

  /** After every restart that leaves a queued task, the counters of its job can stop adding up. */
  lemma RestartBreaksCounters(s: Sys, t: Uuid) returns (run: seq<Sys>, steps: seq<Step>)
    requires Inv(s) && s.submitted == {} && HeldBy(s, t) == []
    requires Known(s.state.jobs, t) && s.state.jobs[t.ns].tasks[t] == Queued
    ensures CarefulTrace(run, steps) && run[0] == s
    ensures t.ns in run[|run| - 1].state.jobs && !Conserved(run[|run| - 1].state.jobs[t.ns].metrics)
  {
    var r1, s1 := DispatchOne(s, t);
    TraceKeepsInv(r1, s1, |r1| - 1);
    var r, done := ReportOnRecovered(r1[|r1| - 1], t);
    var r2, s2 := OneStep(r1[|r1| - 1], Report(r), done);
    CarefulJoin(r1, s1, r2, s2);
    run, steps := r1 + r2[1..], s1 + s2;
  }

  /** The job of a one-task submission, as `submit_job` builds it. */
  ghost function NewJob(dag: DagSpecification, t: Uuid): JobState {
    JobState(dag, JobAccepted, map[t := Queued], [], JobMetrics(1, 0, 0, 1), None)
  }

  /** The state after submitting a one-task job to an empty master. */
  ghost function OneTask(job: Uuid, dag: DagSpecification, t: Uuid): Sys {
    Sys(State(map[job := NewJob(dag, t)],
              Store(map[job := JobRow(JobAccepted, dag)], map[t := TaskRow(job, Queued, None)])),
        map[t := [Waiting]], multiset{}, multiset{}, {job})
  }

  lemma SubmitOneWrites(job: Uuid, dag: DagSpecification, task: Task)
    ensures Submitted(EMPTY.state, job, dag, [task], OneTask(job, dag, task.taskId).state)
  {
    assert TaskIds([task]) == {task.taskId};
    assert AllQueued(TaskIds([task]), NewJob(dag, task.taskId).tasks);
    assert RowsAdded(map[], job, TaskIds([task]), map[task.taskId := TaskRow(job, Queued, None)]);
  }

  lemma SubmitOne(job: Uuid, dag: DagSpecification, task: Task)
    requires Validated(dag) && PossibleTasks(dag, job, [task])
    ensures SubmitStep(EMPTY, job, dag, [task], OneTask(job, dag, task.taskId))
  {
    SubmitOneWrites(job, dag, task);
    assert {} + {job} == {job} && [] + [Waiting] == [Waiting];
    assert TaskIds([task]) == {task.taskId};
  }

  /** A restart right after a one-task submission: the task is queued, and no job counts as submitted. */
  lemma CrashOne(job: Uuid, dag: DagSpecification, t: Uuid) returns (s: Sys)
    requires t.V5? && t.ns == job && Inv(OneTask(job, dag, t))
    ensures CrashStep(OneTask(job, dag, t), [t], s)
    ensures Known(s.state.jobs, t) && s.state.jobs[job].tasks[t] == Queued && s.submitted == {} && HeldBy(s, t) == []
  {
    var a := OneTask(job, dag, t);
    s := Sys(State(RecoverJobs(a.state.store, [t]), RequeueStore(a.state.store)), map[], multiset{}, multiset{}, {});
    assert Elems([t]) == {t};
    RecoveredJob(a.state.store, [t], job);
  }

  /** Some clean run submits a job, restarts the master and ends with counters that do not add up. */
  lemma CountersCanBreak() returns (run: seq<Sys>, steps: seq<Step>, job: Uuid)
    ensures CleanRun(run, steps) && job in run[|run| - 1].state.jobs &&
            !Conserved(run[|run| - 1].state.jobs[job].metrics)
  {
    job := V4(0);
    var dag, task := OneReadTask(job);
    SubmitOne(job, dag, task);
    var t, a := task.taskId, OneTask(job, dag, task.taskId);
    var r0, s0 := OneStep(EMPTY, Submit(job, dag, [task]), a);
    EmptyInv();
    TraceKeepsInv(r0, s0, 1);
    var b := CrashOne(job, dag, t);
    var r1, s1 := OneStep(a, Crash([t]), b);
    CarefulJoin(r0, s0, r1, s1);
    TraceKeepsInv(r0 + r1[1..], s0 + s1, 2);
    var r2, s2 := RestartBreaksCounters(b, t);
    CarefulJoin(r0 + r1[1..], s0 + s1, r2, s2);
    run, steps := (r0 + r1[1..]) + r2[1..], (s0 + s1) + s2;
  }

  /** A job that reads one partition has one task. */
  lemma OneReadTask(job: Uuid) returns (dag: DagSpecification, task: Task)
    ensures Validated(dag) && PossibleTasks(dag, job, [task]) && task.taskId.V5? && task.taskId.ns == job
  {
    dag := DagSpecification([DagNode("read", Read("input", "csv"))], [], 1);
    var tasks := TasksExist(dag, job);
    TaskIdsDistinct(dag, job, tasks);
    task := tasks[0];
    assert tasks == [task];
  }

  // ----- recovered tasks can be scheduled again

  /** Each job keeps its specification and its task ids, or is new and just materialised. */
  ghost predicate PlansKept(s: Sys, s': Sys) {
    forall j :: j in s'.state.jobs ==>
      if j in s.state.jobs
      then s'.state.jobs[j].dag == s.state.jobs[j].dag && s'.state.jobs[j].tasks.Keys == s.state.jobs[j].tasks.Keys
      else PlannedFrom(j, s'.state.jobs[j])
  }

  lemma AssignmentKeepsPlans(s: Sys, s': Sys, t: Uuid)
    requires Known(s.state.jobs, t)
    requires t.ns in s'.state.jobs && s'.state.jobs == s.state.jobs[t.ns := s'.state.jobs[t.ns]]
    requires s'.state.jobs[t.ns].dag == s.state.jobs[t.ns].dag
    requires s'.state.jobs[t.ns].tasks.Keys == s.state.jobs[t.ns].tasks.Keys
    ensures PlansKept(s, s')
  {
  }

  lemma SubmitKeepsPlans(s: Sys, job: Uuid, dag: DagSpecification, tasks: seq<Task>, s': Sys)
    requires SubmitStep(s, job, dag, tasks, s')
    ensures PlansKept(s, s')
  {
    assert PossibleTasks(s'.state.jobs[job].dag, job, tasks);
    assert PlannedFrom(job, s'.state.jobs[job]);
  }

  lemma WriteKeepsPlans(s: Sys, t: Uuid, i: nat, s': Sys)
    requires Inv(s) && WriteMemoryStep(s, t, i, s')
    ensures PlansKept(s, s')
  {
    assert Touched(s, t);
    Instance(s, t);
    assert s'.state.jobs[t.ns].tasks.Keys == s.state.jobs[t.ns].tasks.Keys;
    AssignmentKeepsPlans(s, s', t);
  }

  lemma MarkKeepsPlans(s: Sys, t: Uuid, i: nat, s': Sys)
    requires MarkStep(s, t, i, s')
    ensures PlansKept(s, s')
  {
  }

  lemma RecordedKeepsTasks(job: JobState, r: TaskResult)
    requires r.taskId in job.tasks
    ensures Recorded(job, r).dag == job.dag && Recorded(job, r).tasks.Keys == job.tasks.Keys
  {
  }

  lemma ReportKeepsPlans(s: Sys, r: TaskResult, s': Sys)
    requires Inv(s) && ReportStep(s, r, s')
    ensures PlansKept(s, s')
  {
    ReportedTask(s, r, s');
    ReportEffect(s.state, r, s'.state);
    RecordedKeepsTasks(s.state.jobs[r.jobId], r);
    AssignmentKeepsPlans(s, s', r.taskId);
  }

  lemma CrashKeepsPlans(s: Sys, rows: seq<Uuid>, s': Sys)
    requires Inv(s) && CrashStep(s, rows, s')
    ensures PlansKept(s, s')
  {
    CrashKeys(s, s', rows);
    forall j | j in s'.state.jobs
      ensures s'.state.jobs[j].dag == s.state.jobs[j].dag && s'.state.jobs[j].tasks.Keys == s.state.jobs[j].tasks.Keys
    {
      RecoveryIsFaithful(s, rows, j);
    }
  }

  lemma StepKeepsPlans(s: Sys, step: Step, s': Sys)
    requires Inv(s) && Next(s, step, s')
    ensures PlansKept(s, s')
  {
    match step
    case Submit(job, dag, tasks) => SubmitKeepsPlans(s, job, dag, tasks, s');
    case WriteMemory(t, i) => WriteKeepsPlans(s, t, i, s');
    case Mark(t, i) => MarkKeepsPlans(s, t, i, s');
    case Report(r) => ReportKeepsPlans(s, r, s');
    case Crash(rows) => CrashKeepsPlans(s, rows, s');
    case BeginPass(_) => assert s'.state == s.state;
    case Choose(_, _, _) => assert s'.state == s.state;
    case WriteStore(_, _) => assert s'.state.jobs == s.state.jobs;
    case Send(_, _, _) => assert s'.state == s.state;
  }

  /** In every reachable state, also after restarts, each job's tasks are those of a materialisation. */
  lemma {:induction false} JobsStayPlanned(run: seq<Sys>, steps: seq<Step>, i: nat, j: Uuid)
    requires CleanRun(run, steps) && i < |run| && j in run[i].state.jobs
    ensures PlannedFrom(j, run[i].state.jobs[j])
  {
    if i > 0 {
      RunKeepsInv(run, steps, i - 1);
      assert Next(run[i - 1], steps[i - 1], run[i - 1 + 1]);
      StepKeepsPlans(run[i - 1], steps[i - 1], run[i]);
      if j in run[i - 1].state.jobs {
        JobsStayPlanned(run, steps, i - 1, j);
        SamePlan(j, run[i - 1].state.jobs[j], run[i].state.jobs[j]);
      }
    }
  }

  lemma SamePlan(j: Uuid, a: JobState, b: JobState)
    requires PlannedFrom(j, a) && a.dag == b.dag && a.tasks.Keys == b.tasks.Keys
    ensures PlannedFrom(j, b)
  {
  }

  /**
   In every reachable state, planning a job again names exactly the tasks it has, each once, if its ids are stable.
   */
  lemma ReplanningFindsEveryTask(run: seq<Sys>, steps: seq<Step>, i: nat, j: Uuid, tasks: seq<Task>)
    requires CleanRun(run, steps) && i < |run| && j in run[i].state.jobs
    requires StablePlan(run[i].state.jobs[j].dag) && PossibleTasks(run[i].state.jobs[j].dag, j, tasks)
    ensures run[i].state.jobs[j].tasks.Keys == TaskIds(tasks) && DistinctTaskIds(tasks)
  {
    JobsStayPlanned(run, steps, i, j);
    PlannedIds(j, run[i].state.jobs[j], tasks);
    TaskIdsDistinct(run[i].state.jobs[j].dag, j, tasks);
  }
}
