/** What sets the status of a job and of its tasks, told from the steps of a run alone. */
module Statuses {
  import opened Prelude
  import opened Dag
  import opened Planner
  import opened Master
  import opened Protocol

  // ----- the last event that set a job's status

  datatype Cause = Never | Submission | Dispatch | Success | Failure(message: string)

  /** All tasks of `j` are completed. */
  ghost predicate Finished(s: Sys, j: Uuid) {
    j in s.state.jobs && forall t :: t in s.state.jobs[j].tasks ==> s.state.jobs[j].tasks[t] == Completed
  }

  /** What one step that leads to `after` makes of the cause. */
  ghost function CauseAfter(before: Cause, step: Step, after: Sys, j: Uuid): Cause {
    match step
    case Submit(job, _, _) => if job == j then Submission else before
    case Mark(t, _) => if t.V5? && t.ns == j then Dispatch else before
    case Report(r) =>
      if r.jobId != j then before
      else if r.status.Failed? then Failure(r.status.message)
      else if Finished(after, j) then Success
      else before
    case _ => before
  }

  /** The last event that set the status of `j` in the first `i` steps, across restarts. */
  ghost function CauseOf(run: seq<Sys>, steps: seq<Step>, i: nat, j: Uuid): Cause
    requires |run| == |steps| + 1 && i <= |steps|
  {
    if i == 0 then Never else CauseAfter(CauseOf(run, steps, i - 1, j), steps[i - 1], run[i], j)
  }

  function StatusOf(c: Cause): JobStatus {
    match c
    case Never => JobPending
    case Submission => JobAccepted
    case Dispatch => JobRunning
    case Success => JobSucceeded
    case Failure(_) => JobFailed
  }

  /** The last failure reported since the job was submitted or the master restarted. */
  ghost function ErrorAfter(before: Option<string>, step: Step, j: Uuid): Option<string> {
    match step
    case Submit(job, _, _) => if job == j then None else before
    case Report(r) => if r.jobId == j && r.status.Failed? then Some(r.status.message) else before
    case Crash(_) => None
    case _ => before
  }

  ghost function ErrorOf(steps: seq<Step>, i: nat, j: Uuid): Option<string>
    requires i <= |steps|
  {
    if i == 0 then None else ErrorAfter(ErrorOf(steps, i - 1, j), steps[i - 1], j)
  }

  // ----- one step

  /** The job has the status and the error that the history tells. */
  ghost predicate AsTold(s: Sys, j: Uuid, c: Cause, error: Option<string>) {
    && (j in s.state.jobs <==> c != Never)
    && (j in s.state.jobs ==> s.state.jobs[j].status == StatusOf(c) && s.state.jobs[j].error == error)
  }

  lemma SubmitTells(s: Sys, step: Step, s': Sys, j: Uuid, c: Cause, error: Option<string>)
    requires step.Submit? && Next(s, step, s') && AsTold(s, j, c, error)
    ensures AsTold(s', j, CauseAfter(c, step, s', j), ErrorAfter(error, step, j))
  {
  }

  lemma MarkedState(s: Sys, t: Uuid, i: nat, s': Sys)
    requires Inv(s) && MarkStep(s, t, i, s')
    ensures t.V5? && t.ns in s.state.jobs
    ensures s'.state.jobs == s.state.jobs[t.ns := s.state.jobs[t.ns].(status := JobRunning)]
  {
    assert Touched(s, t);
    Instance(s, t);
    MarkEffect(s, t, i, s');
  }

  lemma MarkTells(s: Sys, t: Uuid, i: nat, s': Sys, j: Uuid, c: Cause, error: Option<string>)
    requires Inv(s) && MarkStep(s, t, i, s') && AsTold(s, j, c, error)
    ensures AsTold(s', j, CauseAfter(c, Mark(t, i), s', j), ErrorAfter(error, Mark(t, i), j))
  {
    MarkedState(s, t, i, s');
  }

  /** What a report makes of its job, its task and its row. */
  ghost predicate ReportDid(s: Sys, r: TaskResult, s': Sys) {
    && Known(s.state.jobs, r.taskId) && r.taskId.ns == r.jobId && r.taskId in s.state.store.tasks
    && s.state.jobs[r.jobId].tasks[r.taskId].Assigned? && s.state.store.tasks[r.taskId].job == r.jobId
    && r.jobId in s'.state.jobs && s'.state.jobs == s.state.jobs[r.jobId := s'.state.jobs[r.jobId]]
    && s'.state.store.tasks ==
       s.state.store.tasks[r.taskId := s.state.store.tasks[r.taskId].(status := r.status, result := Some(r))]
    && var was, now := s.state.jobs[r.jobId], s'.state.jobs[r.jobId];
       && now.tasks == was.tasks[r.taskId := r.status]
       && now.results == was.results + (if r.status == Completed then [r] else [])
       && now.status == (if r.status.Failed? then JobFailed else if AllCompleted(now.tasks) then JobSucceeded
                         else was.status)
       && now.error == (if r.status.Failed? then Some(r.status.message) else was.error)
  }

  lemma ReportedJobState(job: JobState, r: TaskResult)
    requires r.status.Completed? || r.status.Failed?
    ensures var now := Recorded(job, r);
            && now.tasks == job.tasks[r.taskId := r.status]
            && now.results == job.results + (if r.status == Completed then [r] else [])
            && now.status == (if r.status.Failed? then JobFailed else if AllCompleted(now.tasks) then JobSucceeded
                              else job.status)
            && now.error == (if r.status.Failed? then Some(r.status.message) else job.error)
  {
    assert job.results + [] == job.results;
  }

  lemma ReportedState(s: Sys, r: TaskResult, s': Sys)
    requires Inv(s) && ReportStep(s, r, s')
    ensures ReportDid(s, r, s')
  {
    ReportedTask(s, r, s');
    ReportEffect(s.state, r, s'.state);
    ReportedJobState(s.state.jobs[r.jobId], r);
  }

  lemma FinishedMeans(s: Sys, j: Uuid)
    requires j in s.state.jobs
    ensures Finished(s, j) <==> AllCompleted(s.state.jobs[j].tasks)
  {
  }

  lemma TellsOfReport(s: Sys, r: TaskResult, s': Sys, j: Uuid, c: Cause, error: Option<string>)
    requires ReportDid(s, r, s') && AsTold(s, j, c, error)
    ensures AsTold(s', j, CauseAfter(c, Report(r), s', j), ErrorAfter(error, Report(r), j))
  {
    if j == r.jobId {
      FinishedMeans(s', j);
    }
  }

  lemma ReportTells(s: Sys, step: Step, s': Sys, j: Uuid, c: Cause, error: Option<string>)
    requires step.Report? && Inv(s) && Next(s, step, s') && AsTold(s, j, c, error)
    ensures AsTold(s', j, CauseAfter(c, step, s', j), ErrorAfter(error, step, j))
  {
    ReportedState(s, step.result, s');
    TellsOfReport(s, step.result, s', j, c, error);
  }

  lemma CrashTells(s: Sys, step: Step, s': Sys, j: Uuid, c: Cause, error: Option<string>)
    requires step.Crash? && Inv(s) && Next(s, step, s') && AsTold(s, j, c, error)
    ensures AsTold(s', j, CauseAfter(c, step, s', j), ErrorAfter(error, step, j))
  {
    CrashKeys(s, s', step.rows);
    if j in s.state.jobs {
      RecoveryIsFaithful(s, step.rows, j);
      RecoveredJob(s.state.store, step.rows, j);
    }
  }

  /** The other steps set no status. */
  lemma QuietTells(s: Sys, step: Step, s': Sys, j: Uuid, c: Cause, error: Option<string>)
    requires !step.Submit? && !step.Mark? && !step.Report? && !step.Crash?
    requires Next(s, step, s') && AsTold(s, j, c, error)
    ensures AsTold(s', j, CauseAfter(c, step, s', j), ErrorAfter(error, step, j))
  {
    if step.WriteMemory? {
      assert j in s.state.jobs ==> s'.state.jobs[j].status == s.state.jobs[j].status;
    }
  }

  lemma StepTells(s: Sys, step: Step, s': Sys, j: Uuid, c: Cause, error: Option<string>)
    requires Inv(s) && Next(s, step, s') && AsTold(s, j, c, error)
    ensures AsTold(s', j, CauseAfter(c, step, s', j), ErrorAfter(error, step, j))
  {
    match step
    case Submit(_, _, _) => SubmitTells(s, step, s', j, c, error);
    case Mark(t, i) => MarkTells(s, t, i, s', j, c, error);
    case Report(_) => ReportTells(s, step, s', j, c, error);
    case Crash(_) => CrashTells(s, step, s', j, c, error);
    case _ => QuietTells(s, step, s', j, c, error);
  }

  // ----- runs

  lemma {:induction false} RunTells(run: seq<Sys>, steps: seq<Step>, i: nat, j: Uuid)
    requires CleanRun(run, steps) && i < |run|
    ensures AsTold(run[i], j, CauseOf(run, steps, i, j), ErrorOf(steps, i, j))
  {
    if i > 0 {
      RunTells(run, steps, i - 1, j);
      RunKeepsInv(run, steps, i - 1);
      assert Next(run[i - 1], steps[i - 1], run[i - 1 + 1]);
      StepTells(run[i - 1], steps[i - 1], run[i], j, CauseOf(run, steps, i - 1, j), ErrorOf(steps, i - 1, j));
    }
  }

  /**
   In every reachable state, also after restarts, memory and store give a job the status of the last event that set
   it, and memory gives it the message of the last failure since its submission or the last restart.
   */
  lemma StatusIsLastEvent(run: seq<Sys>, steps: seq<Step>, i: nat, j: Uuid)
    requires CleanRun(run, steps) && i < |run|
    ensures j in run[i].state.jobs <==> CauseOf(run, steps, i, j) != Never
    ensures j in run[i].state.jobs ==>
              && j in run[i].state.store.jobs
              && run[i].state.jobs[j].status == run[i].state.store.jobs[j].status == StatusOf(CauseOf(run, steps, i, j))
              && run[i].state.jobs[j].error == ErrorOf(steps, i, j)
  {
    RunTells(run, steps, i, j);
    RunKeepsInv(run, steps, i);
    if j in run[i].state.jobs {
      assert JobOk(run[i], j);
    }
  }

  /** A job is failed exactly when the last event that set its status was a failure report. */
  lemma FailedIffLastFailure(run: seq<Sys>, steps: seq<Step>, i: nat, j: Uuid)
    requires CleanRun(run, steps) && i < |run| && j in run[i].state.jobs
    ensures run[i].state.jobs[j].status == JobFailed <==> CauseOf(run, steps, i, j).Failure?
    ensures j in run[i].state.store.jobs
    ensures run[i].state.store.jobs[j].status == JobFailed <==> CauseOf(run, steps, i, j).Failure?
  {
    StatusIsLastEvent(run, steps, i, j);
  }

  /** After a failure report the job has failed, in memory and in the store, with the reported message. */
  lemma FailureFailsJob(run: seq<Sys>, steps: seq<Step>, i: nat)
    requires CleanRun(run, steps) && i < |steps| && steps[i].Report? && steps[i].result.status.Failed?
    ensures var r, after := steps[i].result, run[i + 1].state;
            && r.jobId in after.jobs && r.jobId in after.store.jobs
            && after.jobs[r.jobId].status == JobFailed && after.store.jobs[r.jobId].status == JobFailed
            && after.jobs[r.jobId].error == Some(r.status.message)
  {
    StatusIsLastEvent(run, steps, i + 1, steps[i].result.jobId);
  }

  // ----- tasks

  ghost predicate Stands(s: Sys, t: Uuid, status: TaskStatus) {
    Known(s.state.jobs, t) && s.state.jobs[t.ns].tasks[t] == status
  }

  lemma WriteKeepsFailed(s: Sys, u: Uuid, i: nat, s': Sys, t: Uuid, m: string)
    requires HeldBy(s, t) == [] && WriteMemoryStep(s, u, i, s') && Stands(s, t, Failed(m))
    ensures Stands(s', t, Failed(m))
  {
    assert u != t;
  }

  /** Nobody holds a failed task. */
  lemma FailedIsFree(s: Sys, t: Uuid, m: string)
    requires Inv(s) && Stands(s, t, Failed(m))
    ensures HeldBy(s, t) == []
  {
    Instance(s, t);
  }

  lemma ReportKeepsFailed(s: Sys, r: TaskResult, s': Sys, t: Uuid, m: string)
    requires ReportDid(s, r, s') && Stands(s, t, Failed(m))
    ensures Stands(s', t, Failed(m))
  {
  }

  lemma MarkKeepsFailed(s: Sys, u: Uuid, i: nat, s': Sys, t: Uuid, m: string)
    requires MarkStep(s, u, i, s') && Stands(s, t, Failed(m))
    ensures Stands(s', t, Failed(m))
  {
  }

  lemma CrashKeepsFailed(s: Sys, rows: seq<Uuid>, s': Sys, t: Uuid, m: string)
    requires Inv(s) && CrashStep(s, rows, s') && Stands(s, t, Failed(m))
    ensures Stands(s', t, Failed(m))
  {
    CrashKeys(s, s', rows);
    RecoveryIsFaithful(s, rows, t.ns);
  }

  lemma SubmitKeepsFailed(s: Sys, step: Step, s': Sys, t: Uuid, m: string)
    requires step.Submit? && Next(s, step, s') && Stands(s, t, Failed(m))
    ensures Stands(s', t, Failed(m))
  {
  }

  lemma QuietKeepsFailed(s: Sys, step: Step, s': Sys, t: Uuid, m: string)
    requires step.BeginPass? || step.Choose? || step.WriteStore? || step.Send?
    requires Next(s, step, s') && Stands(s, t, Failed(m))
    ensures Stands(s', t, Failed(m))
  {
    assert s'.state.jobs == s.state.jobs;
  }

  /** A failed task stays failed. */
  lemma FailedTaskStays(s: Sys, step: Step, s': Sys, t: Uuid, m: string)
    requires Inv(s) && Next(s, step, s') && Stands(s, t, Failed(m))
    ensures Stands(s', t, Failed(m))
  {
    match step
    case Submit(_, _, _) => SubmitKeepsFailed(s, step, s', t, m);
    case WriteMemory(u, i) =>
      FailedIsFree(s, t, m);
      WriteKeepsFailed(s, u, i, s', t, m);
    case Report(r) =>
      ReportedState(s, r, s');
      ReportKeepsFailed(s, r, s', t, m);
    case Mark(u, i) => MarkKeepsFailed(s, u, i, s', t, m);
    case Crash(rows) => CrashKeepsFailed(s, rows, s', t, m);
    case _ => QuietKeepsFailed(s, step, s', t, m);
  }

  /** Some task of the job failed. */
  ghost predicate HasFailedTask(s: Sys, j: Uuid) {
    exists t, m :: Stands(s, t, Failed(m)) && t.ns == j
  }

  lemma FailureFailsTask(s: Sys, r: TaskResult, s': Sys)
    requires Inv(s) && ReportStep(s, r, s') && r.status.Failed?
    ensures HasFailedTask(s', r.jobId)
  {
    ReportedState(s, r, s');
    assert Stands(s', r.taskId, Failed(r.status.message));
  }

  lemma FailedTaskRemains(s: Sys, step: Step, s': Sys, j: Uuid)
    requires Inv(s) && Next(s, step, s') && HasFailedTask(s, j)
    ensures HasFailedTask(s', j)
  {
    var t, m :| Stands(s, t, Failed(m)) && t.ns == j;
    FailedTaskStays(s, step, s', t, m);
  }

  lemma {:induction false} FailedJobHasFailedTask(run: seq<Sys>, steps: seq<Step>, i: nat, j: Uuid)
    requires CleanRun(run, steps) && i < |run| && CauseOf(run, steps, i, j).Failure?
    ensures HasFailedTask(run[i], j)
  {
    var step := steps[i - 1];
    assert Next(run[i - 1], step, run[i - 1 + 1]);
    RunKeepsInv(run, steps, i - 1);
    if step.Report? && step.result.jobId == j && step.result.status.Failed? {
      FailureFailsTask(run[i - 1], step.result, run[i]);
    } else {
      FailedJobHasFailedTask(run, steps, i - 1, j);
      FailedTaskRemains(run[i - 1], step, run[i], j);
    }
  }

  lemma FailedIsUnfinished(s: Sys, j: Uuid)
    requires HasFailedTask(s, j)
    ensures !Finished(s, j)
  {
  }

  lemma CauseAfterFailure(run: seq<Sys>, steps: seq<Step>, i: nat, j: Uuid)
    requires CleanRun(run, steps) && i < |steps| && j in run[i].state.jobs && CauseOf(run, steps, i, j).Failure?
    ensures CauseOf(run, steps, i + 1, j).Failure? ||
            (steps[i].Mark? && steps[i].task.V5? && steps[i].task.ns == j && CauseOf(run, steps, i + 1, j) == Dispatch)
  {
    FailedJobHasFailedTask(run, steps, i, j);
    assert Next(run[i], steps[i], run[i + 1]);
    RunKeepsInv(run, steps, i);
    FailedTaskRemains(run[i], steps[i], run[i + 1], j);
    NotResubmitted(run, steps, i, j);
    AfterFailure(CauseOf(run, steps, i, j), steps[i], run[i + 1], j);
  }

  /** A failed job stays failed until one of its tasks is dispatched, which makes it run again. */
  lemma FailedUntilDispatch(run: seq<Sys>, steps: seq<Step>, i: nat, j: Uuid)
    requires CleanRun(run, steps) && i < |steps| && j in run[i].state.jobs && run[i].state.jobs[j].status == JobFailed
    ensures j in run[i + 1].state.jobs
    ensures run[i + 1].state.jobs[j].status != JobFailed ==>
              && steps[i].Mark? && steps[i].task.V5? && steps[i].task.ns == j
              && run[i + 1].state.jobs[j].status == JobRunning
              && j in run[i + 1].state.store.jobs && run[i + 1].state.store.jobs[j].status == JobRunning
  {
    StatusIsLastEvent(run, steps, i, j);
    CauseAfterFailure(run, steps, i, j);
    StatusIsLastEvent(run, steps, i + 1, j);
  }

  lemma NotResubmitted(run: seq<Sys>, steps: seq<Step>, i: nat, j: Uuid)
    requires CleanRun(run, steps) && i < |steps| && j in run[i].state.jobs
    ensures !(steps[i].Submit? && steps[i].job == j)
  {
    assert Next(run[i], steps[i], run[i + 1]);
  }

  lemma AfterFailure(c: Cause, step: Step, after: Sys, j: Uuid)
    requires c.Failure? && HasFailedTask(after, j) && !(step.Submit? && step.job == j)
    ensures CauseAfter(c, step, after, j).Failure? ||
            (step.Mark? && step.task.V5? && step.task.ns == j && CauseAfter(c, step, after, j) == Dispatch)
  {
    FailedIsUnfinished(after, j);
  }

  /** A report writes the task's status to memory and store, keeps the result, and lists it if it is a success. */
  lemma ReportIsRecorded(run: seq<Sys>, steps: seq<Step>, i: nat)
    requires CleanRun(run, steps) && i < |steps| && steps[i].Report?
    ensures var r, before, after := steps[i].result, run[i].state, run[i + 1].state;
            && Stands(run[i + 1], r.taskId, r.status)
            && r.taskId in after.store.tasks && after.store.tasks[r.taskId] == TaskRow(r.jobId, r.status, Some(r))
            && r.jobId in before.jobs && r.jobId in after.jobs
            && after.jobs[r.jobId].results == before.jobs[r.jobId].results + (if r.status == Completed then [r] else [])
  {
    assert Next(run[i], steps[i], run[i + 1]);
    RunKeepsInv(run, steps, i);
    ReportedState(run[i], steps[i].result, run[i + 1]);
  }

  /** A restart queues the tasks that were in a worker's hands, in memory and in the store, and no others. */
  lemma RestartQueuesInFlight(run: seq<Sys>, steps: seq<Step>, i: nat, t: Uuid)
    requires CleanRun(run, steps) && i < |steps| && steps[i].Crash? && Known(run[i].state.jobs, t)
    ensures var status := run[i].state.jobs[t.ns].tasks[t];
            var now := if status.Assigned? || status.Running? then Queued else status;
            && Stands(run[i + 1], t, now)
            && t in run[i + 1].state.store.tasks && run[i + 1].state.store.tasks[t].status == now
  {
    assert Next(run[i], steps[i], run[i + 1]);
    RunKeepsInv(run, steps, i);
    Instance(run[i], t);
    CrashKeys(run[i], run[i + 1], steps[i].rows);
    RecoveryIsFaithful(run[i], steps[i].rows, t.ns);
    RequeuedAgree(run[i], t);
  }

  // ----- start-up

  function BackInQueue(status: TaskStatus): TaskStatus {
    match status
    case Assigned(_) => Queued
    case Running(_) => Queued
    case _ => status
  }

  /** The stored results of the completed tasks of `j`, in row order. */
  function ResultsIn(store: Store, rows: seq<Uuid>, j: Uuid): seq<TaskResult>
    requires forall t :: t in rows ==> t in store.tasks
  {
    if rows == [] then []
    else
      var init, row := rows[..|rows| - 1], store.tasks[rows[|rows| - 1]];
      ResultsIn(store, init, j) +
      (if row.job == j && row.result.Some? && row.result.value.status == Completed then [row.result.value] else [])
  }

  ghost predicate HasRow(store: Store, rows: seq<Uuid>, j: Uuid)
    requires forall t :: t in rows ==> t in store.tasks
  {
    exists t :: t in rows && store.tasks[t].job == j
  }

  /** The job as start-up builds it: zero counters, no error, and an empty pending job where only tasks are stored. */
  ghost predicate RebuiltJob(store: Store, rows: seq<Uuid>, j: Uuid, job: JobState)
    requires forall t :: t in rows ==> t in store.tasks
  {
    && (if j in store.jobs then job.dag == store.jobs[j].dag && job.status == store.jobs[j].status
        else job.dag == DagSpecification([], [], 0) && job.status == JobPending)
    && job.metrics == JobMetrics(0, 0, 0, 0) && job.error == None
    && job.results == ResultsIn(store, rows, j)
    && (forall t :: t in job.tasks <==> t in rows && store.tasks[t].job == j)
    && forall t :: t in job.tasks ==> job.tasks[t] == BackInQueue(store.tasks[t].status)
  }

  lemma OneMoreRow(store: Store, init: seq<Uuid>, t: Uuid, j: Uuid)
    requires (forall u :: u in init ==> u in store.tasks) && t in store.tasks
    ensures forall u :: u in init + [t] <==> u in init || u == t
    ensures HasRow(store, init + [t], j) <==> HasRow(store, init, j) || store.tasks[t].job == j
    ensures store.tasks[t].job == j ==>
              ResultsIn(store, init + [t], j) == ResultsIn(store, init, j) + CompletedResult(store.tasks[t])
    ensures store.tasks[t].job != j ==> ResultsIn(store, init + [t], j) == ResultsIn(store, init, j)
  {
    var rows := init + [t];
    assert rows[..|rows| - 1] == init && rows[|rows| - 1] == t;
    assert ResultsIn(store, init, j) + [] == ResultsIn(store, init, j);
    assert t in rows;
  }

  lemma RebuiltMore(store: Store, init: seq<Uuid>, t: Uuid, j: Uuid, was: JobState, now: JobState)
    requires (forall u :: u in init ==> u in store.tasks) && t in store.tasks && store.tasks[t].job == j
    requires RebuiltJob(store, init, j, was)
    requires now == was.(tasks := was.tasks[t := Requeued(store.tasks[t].status)],
                         results := was.results + CompletedResult(store.tasks[t]))
    ensures forall u :: u in init + [t] ==> u in store.tasks
    ensures RebuiltJob(store, init + [t], j, now)
  {
    OneMoreRow(store, init, t, j);
  }

  lemma StillRebuilt(store: Store, init: seq<Uuid>, t: Uuid, j: Uuid, job: JobState)
    requires (forall u :: u in init ==> u in store.tasks) && t in store.tasks && store.tasks[t].job != j
    requires RebuiltJob(store, init, j, job)
    ensures forall u :: u in init + [t] ==> u in store.tasks
    ensures RebuiltJob(store, init + [t], j, job)
  {
    OneMoreRow(store, init, t, j);
  }

  lemma OrphanIsRebuilt(store: Store, init: seq<Uuid>, j: Uuid)
    requires (forall u :: u in init ==> u in store.tasks) && j !in store.jobs && !HasRow(store, init, j)
    ensures RebuiltJob(store, init, j, ORPHAN)
  {
    NoRowNoResult(store, init, j);
  }

  lemma AddRowRebuilds(store: Store, init: seq<Uuid>, t: Uuid, jobs: Jobs, j: Uuid)
    requires (forall u :: u in init ==> u in store.tasks) && t in store.tasks
    requires j in jobs <==> j in store.jobs || HasRow(store, init, j)
    requires j in jobs ==> RebuiltJob(store, init, j, jobs[j])
    ensures var after := AddRow(jobs, t, store.tasks[t]);
            && (forall u :: u in init + [t] ==> u in store.tasks)
            && (j in after <==> j in store.jobs || HasRow(store, init + [t], j))
            && (j in after ==> RebuiltJob(store, init + [t], j, after[j]))
  {
    OneMoreRow(store, init, t, j);
    var after := AddRow(jobs, t, store.tasks[t]);
    if store.tasks[t].job == j {
      var was := if j in jobs then jobs[j] else ORPHAN;
      if j !in jobs {
        OrphanIsRebuilt(store, init, j);
      }
      RebuiltMore(store, init, t, j, was, after[j]);
    } else if j in jobs {
      StillRebuilt(store, init, t, j, jobs[j]);
    }
  }

  lemma {:induction false} NoRowNoResult(store: Store, rows: seq<Uuid>, j: Uuid)
    requires (forall t :: t in rows ==> t in store.tasks) && !HasRow(store, rows, j)
    ensures ResultsIn(store, rows, j) == []
  {
    if rows != [] {
      var init, t := rows[..|rows| - 1], rows[|rows| - 1];
      assert rows == init + [t] && t in rows;
      assert forall u :: u in init ==> u in rows;
      NoRowNoResult(store, init, j);
    }
  }

  /** Start-up on any store: which jobs there are, and what each of them is. */
  lemma {:induction false} StartUpContents(store: Store, rows: seq<Uuid>, j: Uuid)
    requires forall t :: t in rows ==> t in store.tasks
    ensures var jobs := RecoverJobs(store, rows);
            && (j in jobs <==> j in store.jobs || HasRow(store, rows, j))
            && (j in jobs ==> RebuiltJob(store, rows, j, jobs[j]))
  {
    if rows != [] {
      var init, t := rows[..|rows| - 1], rows[|rows| - 1];
      assert rows == init + [t] && t in rows;
      StartUpContents(store, init, j);
      AddRowRebuilds(store, init, t, RecoverJobs(store, init), j);
    }
  }

  /** And what start-up writes back: tasks that were in a worker's hands are queued, everything else stays. */
  lemma StartUpWrites(store: Store)
    ensures var after := RequeueStore(store);
            && after.jobs == store.jobs && after.tasks.Keys == store.tasks.Keys
            && forall t :: t in store.tasks ==>
                 after.tasks[t] == store.tasks[t].(status := BackInQueue(store.tasks[t].status))
  {
  }
}
