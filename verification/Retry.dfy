/** The worker's retry loop around one task. */
module Retry {
  import opened Prelude
  import opened Planner
  import opened Master

  /** What one execution of the pipeline reports. */
  datatype Attempt = Attempt(status: TaskStatus, processedRecords: nat)

  /** How many attempts are made from attempt `k` on: up to the first that does not fail, or the last allowed one. */
  ghost function LastAttempt(attempts: nat -> Attempt, limit: nat, k: nat): (r: nat)
    requires 1 <= k <= limit + 1
    ensures k <= r <= limit + 1
    ensures forall i :: k <= i < r ==> attempts(i).status.Failed?
    ensures attempts(r).status.Failed? ==> r == limit + 1
    decreases limit + 1 - k
  {
    if attempts(k).status.Failed? && k <= limit then LastAttempt(attempts, limit, k + 1) else k
  }

  class Executor {
    var tasksCompleted: nat
    var tasksFailed: nat
    var recordsProcessed: nat
    var activeTask: Option<Uuid>

    constructor ()
      ensures tasksCompleted == 0 && tasksFailed == 0 && recordsProcessed == 0 && activeTask == None
    {
      tasksCompleted, tasksFailed, recordsProcessed, activeTask := 0, 0, 0, None;
    }

    /** `execute_task`: attempt `k` yields `attempts(k)`. */
    method ExecuteTask(taskId: Uuid, limit: nat, attempts: nat -> Attempt) returns (result: Attempt, ghost made: nat)
      modifies this
      ensures 1 <= made <= limit + 1 && result == attempts(made)
      ensures forall k :: 1 <= k < made ==> attempts(k).status.Failed?
      ensures result.status.Failed? ==> made == limit + 1
      ensures tasksFailed == old(tasksFailed) + made - (if result.status.Failed? then 0 else 1)
      ensures tasksCompleted == old(tasksCompleted) + (if result.status.Completed? then 1 else 0)
      ensures recordsProcessed ==
              old(recordsProcessed) + (if result.status.Completed? then result.processedRecords else 0)
      ensures activeTask == None
    {
      made := LastAttempt(attempts, limit, 1);
      var attempt := 0;
      while true
        invariant 0 <= attempt <= limit && attempt < made
        invariant made == LastAttempt(attempts, limit, attempt + 1)
        invariant tasksFailed == old(tasksFailed) + attempt
        invariant tasksCompleted == old(tasksCompleted) && recordsProcessed == old(recordsProcessed)
        decreases limit - attempt
      {
        attempt := attempt + 1;
        activeTask := Some(taskId);
        result := attempts(attempt);
        if result.status.Completed? {
          tasksCompleted := tasksCompleted + 1;
          recordsProcessed := recordsProcessed + result.processedRecords;
        } else if result.status.Failed? {
          tasksFailed := tasksFailed + 1;
        }
        if result.status.Failed? && attempt <= limit {
          continue;
        }
        activeTask := None;
        return;
      }
    }
  }
}
