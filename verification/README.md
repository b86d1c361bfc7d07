# A verified model of the mini-Spark engine

The engine runs batch jobs described by a graph of operators. A master plans a job into one task per
partition, keeps the job's state in memory and in a SQLite store, and hands tasks to workers. A worker
interprets the planned operator list of its task and reports the result. This project models the parts of
the engine that decide whether a job's answer is right, and proves what they compute.

| module | models |
|---|---|
| `Dag`, `Graph`, `Ordering`, `Planner` | the job graph, `ordered_nodes`, `inject_local_shuffle`, `materialize_tasks` |
| `Pipeline`, `Execution` | the operator loop of `execute_sync`, against the recursive meaning of a graph |
| `FanOut` | a job of the engine's own operators in which one node feeds two |
| `Residency`, `Completion` | the operator loop with its spill files, whose paths partitions may share; when such a run completes |
| `Shuffle`, `Join`, `PartitionedJoin`, `Reduce` | the keyed operators, and what shuffling before them means |
| `LocalJoin` | joins of single tasks against one big join |
| `Read`, `Transforms`, `Grouping`, `Aggregates` | partitioned reading, map, filter, flat-map; reductions of single tasks against one big reduction |
| `Operators`, `Chains`, `Jobs`, `JoinJobs` | dispatch to operators, chains of operators, and whole jobs from planning to output |
| `Spill` | `PartitionCache` over a file system of byte sequences |
| `Scheduler` | the worker registry and the least-loaded selection with its rotating queue |
| `Master`, `Protocol` | job state, store, recovery; the master as a state machine at lock granularity |
| `Statuses`, `TaskContents` | job and task statuses told from the steps of a run; tasks told from the specification |
| `JoinContents`, `Reducers`, `ReadContents`, `RecordContents` | what the operators output, told from their texts and the input records with literal names |
| `Retry` | the worker's retry loop |
| `Prelude`, `Values`, `Platform`, `Buckets` | shared definitions |

How the surroundings are modelled:

- The order in which a hash map is iterated is a nondeterministic choice in the methods (`ReadyIds`,
  `HashOrder`, `AvailableWorkers`, `LoadTasks`), so every contract holds for all orders.
- The hasher, number formatting, float arithmetic, text case and JSON parsing are arbitrary functions (`Runtime`, `TextFns`).
- A version 5 UUID (section 5.5 of RFC 9562) is an injective function of namespace and name.
- JSON encoding of a record is a codec whose lines contain no newline, are not blank and decode to the record (`Spill.Good`).
- The store is a pair of maps with upserts; files are byte sequences.
- The clock is a parameter; a chosen worker, a report and a crash are steps of the environment.

What the main theorems say together: the planner's order is a function of the order of its first queue
(`Ordering.OrderedNodes`), and every order computes the same thing, namely the recursive evaluation of the graph
(`Pipeline.PipelineMeaning`, `Execution.TaskMeaning`). Over arbitrary operator functions that is true exactly when no
node has two outgoing edges (`Pipeline.CorrectIffNoFanOut`); the engine's own operators already lose a copy on such a
graph (`FanOut.FanOutLosesACopy`). These statements take a partition as its record list. With spill files, and at every
memory limit, a task completes exactly when the sink evaluates and its run is untangled: partitions that are alive
together and exceed the limit have different spill paths, and no operator stores an output on the path of an input it
has yet to load. A task that completes is right (`Completion.CompletesIff`, `Jobs.EngineTaskMeaning`). Chains of
operators without client shuffles are always untangled (`Chains.ChainIsUntangled`). Reads share the one path of their task, so two large reads
in front of a join break it (`Jobs.LargeReadsBreakJoin`, `Residency.SharedPathIff`, `Spill.StoreTwoOnOnePath`); only
the buckets of a shuffle have paths of their own.

What single operators output is stated a second time without the functions that compute it: field names, file lines,
predicate and reducer texts are spelled out, and the operator is proved to output exactly the records so described
(`JoinContents.JoinContentsIff`, `Reducers.KeyedReductionMeans`, `ReadContents.CsvContents`,
`RecordContents.FilterSucceedsIff` and its neighbours). In the same way a job's status is that of the last event in the
run that set it (`Statuses.StatusIsLastEvent`).

Running a job in N tasks gives the records of one big run for reads and transformations (`Jobs.PipeJobInvariance`). For
keyed reductions and joins it does so exactly when no key lies in two tasks (`Jobs.GroupedJobIff`) and no left and
right record with equal keys lie in different tasks (`JoinJobs.JoinJobIff`). The operators themselves would be right
behind a shuffle of all tasks (`Reduce.ShuffleMakesGroupingGlobal`, `PartitionedJoin.PartitionedJoinRows`), but the
engine performs none.

The master dispatches a task at most once per lifetime, reports success exactly when every task is completed, and loses
nothing in a crash, provided no scheduling pass takes a task that another one still holds; a pass that does can always
lead to a second dispatch (`Protocol.PassIsSafeIff`). A submission counts as a pass: it schedules its own tasks without
looking at their status, so it holds them from the moment its job is visible, and a heartbeat's pass in between can
dispatch one of them a second time (`Protocol.PassDuringSubmission`).

Where the code and the repository's documentation differ, the model follows the code:

- The documentation promises that `reduce_by_key` redistributes records between workers, so that grouping is global. The
  injected shuffle has no incoming and no outgoing edge, so it works on an empty partition and its result is never used
  (`Execution.InjectionPreservesMeaning`), and each task reduces its own partition (`Jobs.GroupedTask`). The tasks
  output the records of one big reduction exactly when no key value occurs in two tasks (`Jobs.GroupedJobIff`, `Grouping.LocalGroupingIff`);
  two lines with one key already break it (`Grouping.SplitKeyExample`). Counts and exact sums add up in any case
  (`Jobs.JobAggregatesAddUp`).
- The documentation promises that joins shuffle and colocate equal keys (lines 68, 429 and 449 of the
  repository's README.md), and
  tests/test_e2e.py:99-110 submits a join with five partitions. Each task joins the records it reads itself
  (`JoinJobs.JoinTask`); the tasks output the rows of one big join exactly when no left and right record with equal key
  text lie in different tasks, for all four join types (`JoinJobs.JoinJobIff`, `LocalJoin.LocalJoinIff`), and three
  lines are enough to lose the only pair (`JoinJobs.LostPairExample`). A client cannot shuffle both sides either: two
  or more buckets per side give a join more than two partitions, and it fails (`JoinJobs.ShuffledJoinTaskFails`).
- The documentation promises that tasks of a lost worker are assigned to another one. No step of the master but a restart
  makes an assigned task queued again (`Protocol.OnlyRestartRequeues`).
- Right and full joins emit a second copy of a matched right record as if it were unmatched; the exact
  condition is `Join.NoMatchedDuplicate` (`Join.CodeIsNestedLoopIff`, `Join.DuplicateRightExample`).
- The scheduler's queue is rebuilt only when its length changes. A selection is least loaded exactly when a least-loaded worker was
  active at the last rebuild (`Scheduler.LightestIff`); after a same-size change it may choose a worker that is no longer active
  (`Scheduler.StaleQueueExample`).
- Task ids are called deterministic. They are exactly when the number of reductions that directly follow a shuffle on
  their key does not depend on the first queue (`Planner.TaskIdsStableIff`): always with at most one node that no edge enters, and always
  when no client shuffle is on the key of a reduction; not for a shuffle beside the reduction
  (`Planner.ClientShuffleIsUnstable`).
- A failed job is not final: it runs again as soon as another of its tasks is sent, and can then never succeed
  (`Statuses.FailedUntilDispatch`, `Statuses.FailedTaskStays`, `Protocol.SucceededIffAllCompleted`).
- A task without an operator list is meant to run its single operator; the result is stored under "op-0" and looked up
  under "final", so such a task always fails (`Pipeline.BareTaskFails`). The planner never makes one.
- A recovered job starts with zero counters, so its counters stop adding up with the first report
  (`Protocol.CountersConservedIff`, `Protocol.CountersCanBreak`).

## Model

| member | source | states |
|---|---|---|
| `Ordering.ReleaseChildren` | src/common/dag.rs:215-224 | every counter drops by the number of edges to it, and exactly the ids that reach zero are queued, each once, where their last edge stands |
| `Ordering.CountEdges` | src/common/dag.rs:194-203 | counters are in-degrees over declared ids and edge targets; successor lists follow edge order |
| `Ordering.ReadyIds` | src/common/dag.rs:205-210 | the initial queue is some duplicate-free listing of the zero-counter ids |
| `Ordering.PopNext` | src/common/dag.rs:213-225 | one iteration appends exactly the freed children in edge order and keeps: counters count unfinished predecessors, zero means popped or queued, the popped list is forward |
| `Ordering.DrainQueue` | src/common/dag.rs:205-225 | the loop terminates with a forward duplicate-free list, every id left waits for one that is left, and the list is the function `Kahn` of the first queue, which lists the ids that no edge enters in some order |
| `Ordering.KahnPops` | src/common/dag.rs:212-225 | for every first queue the popped list is forward and holds exactly the ids that are not blocked |
| `Ordering.FinishedIffNotBlocked` | src/common/dag.rs:212-225 | an id is popped exactly when no cycle reaches it, whatever the order |
| `Ordering.LeftoverIsStuck` | src/common/dag.rs:227-231 | the fallback appends exactly the blocked ids in declaration order |
| `Ordering.BlockedIffFromCycle` | src/common/dag.rs:187-237 | between declared nodes, blocked is the same as reachable from a cycle |
| `Ordering.OrderIsPermutation` | src/common/dag.rs:233-236 | with distinct ids the result is a permutation of the declared nodes |
| `Ordering.AcyclicIsTopological` | src/common/dag.rs:187-237 | on an acyclic graph the fallback adds nothing and every edge goes forward |
| `Ordering.PossibleIsPlanned` | src/common/dag.rs:187-237 | on every specification: one node per id, unblocked ones first and fed by earlier ones, then the stuck ids |
| `Ordering.OrderedNodes` | src/common/dag.rs:187-237 | without edges the declaration order, otherwise the order determined by some first queue; on acyclic graphs a permutation in which every edge goes forward |
| `Planner.InjectLocalShuffle` | src/common/dag.rs:158-185 | computes the injected list specified by `Inject` |
| `Planner.ReductionsAreShuffled` | src/common/dag.rs:158-185 | every keyed reduction directly follows a shuffle on its key |
| `Planner.EraseInjected` | src/common/dag.rs:170-178 | erasing injected ids gives the node list back |
| `Planner.LabelRoundTrip` | src/worker/executor.rs:259-265 | the text before the first arrow of an edge label is the edge's source exactly when the source contains no arrow |
| `Planner.LabelsRoundTrip` | src/common/dag.rs:119-128 | the parents read from a task's edge labels are the sources of the edges into the node, in edge order |
| `Planner.TaskIdInjective` | src/common/dag.rs:133-138 | a task id determines job, final stage and partition |
| `Planner.MaterializeTasks` | src/common/dag.rs:109-156 | no tasks without a read node, otherwise one task per partition for some order the planner may produce |
| `Planner.InjectLength` | src/common/dag.rs:158-185 | injection adds one node for each reduction that does not directly follow a shuffle on its key |
| `Planner.TaskIdsDistinct` | src/common/dag.rs:135-154 | the tasks of one materialisation have distinct ids in the job's namespace |
| `Planner.TaskIdsStableIff` | src/common/dag.rs:109-156 | any two materialisations give the same ids exactly when there are no tasks or every first queue leads to the same number of preshuffled reductions |
| `Planner.NoClientShuffleIsStable` | src/common/dag.rs:158-185 | without client shuffles on reduction keys the count is the same for every first queue |
| `Planner.OneReadyIsStable` | src/common/dag.rs:205-210 | with at most one id that no edge enters there is only one order |
| `Planner.ShuffledChainIsStable` | src/common/dag.rs:162-178 | a client shuffle in a chain before its reduction does not make ids unstable |
| `Planner.TasksExist` | src/common/dag.rs:109-156 | every specification with a read node has a materialisation with one task per partition |
| `TaskContents.TasksSay` | src/common/dag.rs:109-156 | every field of every materialised task, told from the specification: id as version 5 name of decimal stage and partition, first read, stages that are declared nodes or shuffles in front of a reduction, one "from->to" text per incoming edge in order |
| `Planner.ClientShuffleIsUnstable` | src/common/dag.rs:205-225 | for a read, an unconnected client shuffle and a reduction on its key, the two first queues give two orders and the ids are not stable |
| `Pipeline.TakeInputs` | src/worker/executor.rs:267-280 | a parent's result is removed on first use, missing ones contribute nothing, no parents means one empty partition |
| `Pipeline.ExecuteStages` | src/worker/executor.rs:248-320 | the loop runs the stages in order and stops at the first failing operator |
| `Pipeline.ExecutePipeline` | src/worker/executor.rs:246-330 | ids, parents and the final key come from the task with the code's fallbacks; fails when the final result is missing |
| `Pipeline.BareTaskFails` | src/worker/executor.rs:178-196 | a task without operator list and ids fails on every input and with every operator, because its result is stored and looked up under different names |
| `Pipeline.StepEvaluates` | src/worker/executor.rs:254-320 | without fan-out, one iteration turns the values of finished, unconsumed nodes into those after one more node |
| `Pipeline.RunAgrees` | src/worker/executor.rs:246-330 | without fan-out, every topological order returns the recursive evaluation of its last node and fails iff some node's evaluation fails |
| `Pipeline.PipelineMeaning` | src/worker/executor.rs:246-330 | with one sink, the outcome is the recursive evaluation of the sink, the same for every order |
| `Pipeline.CorrectIffNoFanOut` | src/worker/executor.rs:275-279 | the interpreter agrees with the recursive meaning for all operator functions exactly when no node has two outgoing edges |
| `FanOut.FanOutLosesACopy` | src/worker/executor.rs:275-279 | with the engine's own operators: a read that feeds two identities comes out once where the graph means it twice |
| `Execution.InjectionPreservesMeaning` | src/common/dag.rs:158-185 | the final output is the same with and without injected shuffles, when injected ids do not collide |
| `Execution.TaskStages` | src/common/dag.rs:113-153 | reading a materialised task back gives the planned stages and final key |
| `Execution.TaskMeaning` | src/worker/executor.rs:195-330 | every task of every materialisation computes the recursive evaluation of the job's sink, for partitions as record lists |
| `Residency.SpillingIsInvisible` | src/worker/executor.rs:201-216 | the loop with spill files returns what it returns without them while live partitions above the limit have different paths and no operator stores an output on the path of a spilled input it has yet to load |
| `Completion.CompletesIff` | src/worker/executor.rs:201-330 | when reads have no parents and every result is taken or final: the loop with spill files completes exactly when the loop without them does and that condition holds, and then it returns the same |
| `Completion.TaskCompletesIff` | src/worker/executor.rs:195-330 | at every memory limit a materialised task completes exactly when the sink evaluates and the run is untangled, and a task that completes outputs the value of the sink |
| `Residency.StoreLikeCaches` | src/worker/partition.rs:38-119 | storing two partitions on one path and loading them gives in this model what the caches give over files of bytes |
| `Residency.FittingIsUntangled` | src/worker/partition.rs:56-61 | that condition holds when every intermediate partition fits in memory |
| `Residency.StoredTaskMeaning` | src/worker/executor.rs:195-330 | in an untangled run every task computes the recursive evaluation of the sink, spill files included, failures too |
| `Jobs.EngineTaskMeaning` | src/worker/executor.rs:195-330 | the exact condition for the engine's own operators: completes iff the sink evaluates and the run is untangled, and then right |
| `Residency.SharedPathIff` | src/worker/executor.rs:201-216 | the condition spelled out for two sources with one spill path in front of a node: right exactly when one of their outputs fits in memory |
| `Jobs.LargeReadsBreakJoin` | src/worker/ops/join.rs:43-44 | two reads above the limit in front of a join make the task fail |
| `Operators.EngineIsEngineLike` | src/worker/ops/map.rs:18-38 | map, filter and flat-map work on one partition after the other, and reads ignore their inputs |
| `Operators.ZeroIsOne` | src/worker/ops/mod.rs:100-131 | reads and shuffles for no partitions work as for one, and a shuffle into one bucket keeps all records in order |
| `Operators.EngineShuffles` | src/worker/ops/shuffle.rs:23-56 | the engine's shuffle cannot fail on an empty partition, as injection needs |
| `Chains.ChainEval` | src/worker/ops/mod.rs:92-166 | in every graph that contains a chain of operators, the value of each of its nodes is the operators applied one after the other |
| `Chains.ChainIsUntangled` | src/worker/executor.rs:201-216 | a chain without client shuffles is untangled at every memory limit and with every choice of spill paths, injected shuffles included |
| `Chains.ChainRun` | src/worker/executor.rs:195-330 | a materialised task of such a chain computes the operators applied one after the other, spill files included |
| `Chains.ChainTasksExist` | src/common/dag.rs:109-156 | every chain has a materialisation with one task per partition |
| `Jobs.PipeTask` | src/worker/executor.rs:246-330 | a task of a read-and-transform job outputs its partition, read and transformed, at every memory limit |
| `Jobs.PipeJobInvariance` | src/common/dag.rs:109-156 | for read-and-transform jobs, from planning to output and with spill files: all tasks succeed iff the single-partition job does, and they output the same records |
| `Jobs.GroupedTask` | src/common/dag.rs:158-185 | a task of a job with a keyed reduction reduces its own records and no others, at every memory limit |
| `Jobs.GroupedJobIff` | src/worker/ops/reduce.rs:90-139 | for read-transform-reduce jobs, from planning to output and with spill files: all tasks succeed iff the single-partition job does, and they output its records exactly when no key value occurs in two tasks |
| `Jobs.JobAggregatesAddUp` | src/worker/ops/reduce.rs:141-165 | the counts and exact sums the tasks of such a job report for a key add up to what the single-partition job reports |
| `Shuffle.ComputeBucket` | src/worker/ops/shuffle.rs:58-76 | every record has a bucket below the partition count |
| `Shuffle.ShuffleByKey` | src/worker/ops/shuffle.rs:22-56 | fails on zero partitions, otherwise shuffles the concatenated inputs |
| `Shuffle.ShuffleConserves` | src/worker/ops/shuffle.rs:38-54 | shuffling neither loses nor duplicates a record |
| `Shuffle.ShuffleContents` | src/worker/ops/shuffle.rs:58-76 | a record is in bucket b exactly when the hash of its key's text, of its boolean, or of nothing says so |
| `Join.IndexRight` | src/worker/ops/join.rs:46-57 | the map holds, per key, the matching right records in order; stops at the first bad record |
| `Join.Position` | src/worker/ops/join.rs:72-75 | finds the first of several equal right records |
| `Join.EmitMatches` | src/worker/ops/join.rs:68-80 | emits all pairs of one left record and marks exactly the first copy of each match |
| `Join.ProbeLeft` | src/worker/ops/join.rs:59-85 | the left output and exactly which right positions are marked |
| `Join.EmitUnmatched` | src/worker/ops/join.rs:87-95 | emits exactly the unmarked right records |
| `Join.ExecuteJoin` | src/worker/ops/join.rs:29-111 | the outcome for every input, including wrong input counts and each kind of bad record |
| `JoinContents.JoinSucceedsIff` | src/worker/ops/join.rs:30-75 | a join succeeds exactly on two partitions whose records are all objects with a string or number under the key |
| `JoinContents.JoinContentsIff` | src/worker/ops/join.rs:59-139 | a record is in the output exactly when it holds the fields of a left and a right record with equal key text under "left_" and "right_" and nothing else, or, by join type, those of a lonely (on the right also repeated) record with a null "right_missing" or "left_missing" |
| `Join.LeftPartIsNested` | src/worker/ops/join.rs:62-85 | hash probing emits what two nested loops emit, in the same order |
| `Join.CodeIsNestedLoopIff` | src/worker/ops/join.rs:46-95 | the join equals the nested-loop join exactly when it keeps no right rows or no matched right row is repeated |
| `Join.DuplicateRightExample` | src/worker/ops/join.rs:72-77 | a record joined with two equal partners: the outcome of the right join is not that of nested loops |
| `Join.RightMirrorsLeft` | src/worker/ops/join.rs:113-139 | a right join is the left join of the swapped sides with prefixes exchanged, as multisets |
| `Join.CodeRightMirrorsLeftIff` | src/worker/ops/join.rs:46-139 | the code obeys the mirror law exactly when no matched right row is repeated |
| `PartitionedJoin.BucketsAgree` | src/worker/ops/shuffle.rs:58-76 | shuffle and join read the same key text |
| `PartitionedJoin.PartitionedJoinErrors` | src/worker/ops/join.rs:49-67 | all bucket joins succeed exactly when the whole join does |
| `LocalJoin.LocalJoinIff` | src/worker/ops/join.rs:46-96 | joining task by task outputs the multiset of rows of the whole join exactly when rows with equal keys on the two sides are in the same task, for all four join types |
| `JoinJobs.JoinTask` | src/worker/ops/read.rs:64-122 | a task of a join job joins the records its two pipes read and transform, and no others |
| `JoinJobs.JoinJobIff` | src/worker/ops/join.rs:29-111 | for two read-and-transform pipes in front of a join, from planning to output: all tasks succeed iff the single-partition job does, and they output its records exactly when no left and right record with equal key text lie in different tasks |
| `JoinJobs.CompletedJoinJobIff` | src/worker/executor.rs:195-330 | the same equivalence with spill files, for tasks that complete, at every memory limit |
| `JoinJobs.JoinJobsExist` | src/common/dag.rs:109-156 | every pair of pipes and a join has such a graph and a materialisation for every partition count |
| `JoinJobs.LostPairExample` | src/worker/ops/read.rs:77-90 | one left line whose only partner is the second right line: two tasks output nothing, one task outputs the pair |
| `JoinJobs.ShuffledJoinTaskFails` | src/worker/ops/join.rs:29-35 | a task whose join is fed by two shuffles, one of them into more than one bucket, fails at every memory limit |
| `PartitionedJoin.PartitionedJoinRows` | src/worker/ops/join.rs:29-111 | shuffling both sides and joining bucket by bucket yields the multiset of rows of the whole join, for all types and all records |
| `Reduce.ComputeFold` | src/worker/ops/reduce.rs:193-206 | the fold over the numeric values of a field, with their number |
| `Reduce.FoldIsExtreme` | src/worker/ops/reduce.rs:168-221 | with a minimum or maximum the fold yields the least or greatest number of the field and counts the numbers |
| `Reduce.GroupRecordsByKey` | src/worker/ops/reduce.rs:107-119 | succeeds iff every record has a string key; each group keeps its records in order |
| `Reduce.EmitGroups` | src/worker/ops/reduce.rs:121-135 | one record per group, the same multiset for every iteration order |
| `Reduce.ReduceByKey` | src/worker/ops/reduce.rs:90-139 | every outcome: empty input, unknown reducer, missing key, or one partition with one record per key |
| `Reducers.ReducerMeans` | src/worker/ops/reduce.rs:40-55 | from the reducer text: "count", "collect", "sum", "min" and "max" with and without a field report the number, list, total, least and greatest of the group under the literal output name |
| `Reducers.GroupsMean` | src/worker/ops/reduce.rs:141-195 | in whatever order, a keyed reduction outputs one record per key that occurs: the key and the reduction of exactly the records with that key |
| `Reducers.KeyedReductionMeans` | src/worker/ops/reduce.rs:90-139 | the dispatched operator: fails exactly on an unknown reducer or a record without a text under the key, otherwise the records above in one partition |
| `Reducers.ReductionMeans` | src/worker/ops/reduce.rs:59-88 | reduce and aggregate: one record that holds the reduction of the records of all partitions; fails exactly on unknown reducers |
| `Reduce.OrderDoesNotMatter` | src/worker/ops/reduce.rs:121-135 | any listing of the group keys emits the same records |
| `Reduce.ShuffleMakesGroupingGlobal` | src/worker/ops/reduce.rs:107-134 | reducing the shuffled buckets yields the records of reducing everything, for every reducer, also non-associative ones |
| `Reduce.ShuffledKeysIff` | src/worker/ops/reduce.rs:111-116 | some bucket lacks a key iff the input does |
| `Grouping.GroupingIff` | src/worker/ops/reduce.rs:107-134 | reducing the partitions of any list equals reducing all of it exactly when no key value occurs in two partitions, for every reducer |
| `Grouping.LocalGroupingIff` | src/worker/ops/reduce.rs:90-139 | the same for what N tasks have read and transformed |
| `Grouping.SplitKeyExample` | src/worker/ops/read.rs:77-91 | two lines with one key, read by two tasks, give two records where one task gives one |
| `Transforms.IdentityKeeps` | src/worker/ops/map.rs:40-91 | the identity function changes no value, at any depth of arrays and objects |
| `Transforms.TransformRecords` | src/worker/ops/filter.rs:87-108 | the record loop of map, filter and flat-map: all outputs in order, or the first error |
| `RecordContents.AlwaysFilters` | src/worker/ops/filter.rs:112-113 | "always_true" returns the input and "always_false" nothing |
| `RecordContents.NonEmptyFilter` | src/worker/ops/filter.rs:114-119 | "non_empty" keeps, in order, the non-empty objects without null values |
| `RecordContents.HasFieldFilter` | src/worker/ops/filter.rs:120-123 | "has_field:f" keeps the objects with field f |
| `RecordContents.EqualsFilter` | src/worker/ops/filter.rs:124-133 | "equals:f=t" keeps the objects whose string in f equals t up to case |
| `RecordContents.GreaterFilter` | src/worker/ops/filter.rs:134-141 | "gt:f=x" keeps the objects whose number in f is above the parsed bound, and fails if it does not parse |
| `RecordContents.LessFilter` | src/worker/ops/filter.rs:142-149 | "lt:f=x" keeps the objects whose number in f is below the parsed bound, and fails if it does not parse |
| `RecordContents.FilterSucceedsIff` | src/worker/ops/filter.rs:26-79 | a filter fails exactly on predicate texts of none of these forms, whatever the records |
| `RecordContents.CaseContents` | src/worker/ops/map.rs:40-90 | "uppercase" and "lowercase" change every string at any depth and nothing else; "identity" and the identity operator change nothing |
| `RecordContents.DoubleContents` | src/worker/ops/map.rs:45-75 | "double" doubles every string and number at any depth and nothing else, and fails exactly when one of them cannot be doubled |
| `RecordContents.UnknownMap` | src/worker/ops/map.rs:57-72 | an unknown function fails exactly when some record holds a string or a number |
| `RecordContents.SplitContents` | src/worker/ops/flat_map.rs:56-82 | "split:f" gives one record per token of the text in f with only that field replaced, and keeps records without tokens |
| `RecordContents.ExplodeContents` | src/worker/ops/flat_map.rs:84-105 | "explode_array:f" gives one record per element of the array in f with only that field replaced, none for an empty one |
| `RecordContents.ExpandContents` | src/worker/ops/flat_map.rs:107-121 | "json_expand" gives one record per field, in the object's order |
| `RecordContents.UnknownFlat` | src/worker/ops/flat_map.rs:36-54 | an unknown operation fails as soon as there is a record |
| `Transforms.ChainConcat` | src/worker/ops/flat_map.rs:19-34 | a chain of map, filter and flat-map distributes over concatenation, errors included |
| `Transforms.ChainNeedsBuild` | src/worker/ops/filter.rs:25-80 | a chain with an operator that cannot be built fails on every input |
| `Read.ReadItems` | src/worker/ops/read.rs:78-122 | reads exactly the items whose position is congruent to the partition, or fails at the first bad one |
| `Read.ReadCsvLines` | src/worker/ops/read.rs:63-76 | blank lines are skipped before numbering; the rows of this partition in order |
| `Read.ExecuteRead` | src/worker/ops/read.rs:42-137 | every format, missing files, empty headers and unknown formats |
| `ReadContents.CsvContents` | src/worker/ops/read.rs:50-75 | header line, lines with either line end, and a last line without one: task p of n returns the row of every n-th non-blank line after the header, in order |
| `ReadContents.JsonLinesContents` | src/worker/ops/read.rs:77-90 | every n-th line, blank ones counted, gives a record if not blank; fails exactly when one of the task's own lines does not parse; objects unchanged, other values under "value" |
| `ReadContents.JsonArrayContents` | src/worker/ops/read.rs:91-107 | every n-th element of the array gives a record; fails exactly when the array does not parse |
| `ReadContents.ReadFails` | src/worker/ops/read.rs:43-56 | missing files, blank headers and unknown formats fail |
| `Read.TasksSucceedTogether` | src/worker/ops/read.rs:64-122 | all N read-and-transform tasks succeed iff the one-partition run does |
| `Read.PartitionCountInvariance` | src/worker/ops/read.rs:64-122 | the N outputs together are the one-partition output, for every N, input and chain |
| `Aggregates.OutputReports` | src/worker/ops/reduce.rs:141-165 | the count or sum reported for a key is the total contribution of the records with that key |
| `Aggregates.PartialAggregatesAddUp` | src/worker/ops/reduce.rs:90-165 | behind any chain of map, filter and flat-map, per-task counts and exact sums of each key add up to those of the one-partition run |
| `Spill.DecodeFrames` | src/worker/partition.rs:97-109 | newline framing and decoding give every record list back |
| `Spill.LeftoverIff` | src/worker/partition.rs:73-82 | appending to a file that holds records returns those too; the round trip is exact iff the file was empty |
| `Spill.PartitionCache.constructor` | src/worker/partition.rs:26-36 | an empty cache that remembers what its path already holds |
| `Spill.AppendRecords` | src/worker/partition.rs:75-82 | appends one line per record and counts exactly the bytes written |
| `Spill.PartitionCache.SpillToDisk` | src/worker/partition.rs:63-95 | appends the resident records to whatever the file holds with exact byte accounting; touches no other file |
| `Spill.PartitionCache.Push` | src/worker/partition.rs:38-61 | appends in order; spills exactly when the limit is passed or a spill has happened; resident bytes stay within the limit; with an exclusive file, spilled bytes equal the file growth |
| `Spill.PartitionCache.PushBatch` | src/worker/partition.rs:49-54 | appends all values in order, spills exactly when they exceed the limit, and then appends exactly their lines to the file |
| `Spill.PartitionCache.DrainAll` | src/worker/partition.rs:97-119 | returns exactly the pushed values in order when the file is exclusive and started empty, what the file decodes to otherwise; resets the cache and removes the file; a missing or unreadable file is an error that changes nothing |
| `Spill.ReadBack` | src/worker/partition.rs:100-109 | decodes the non-blank lines in order or fails at the first bad one |
| `Spill.StoreAndLoad` | src/worker/ops/mod.rs:36-72 | storing and loading records is the identity when they fit, on any disk, and for every limit on an absent spill file; the disk is left as it was |
| `Spill.StoreTwoOnOnePath` | src/worker/executor.rs:201-216 | two partitions on one path come back as stored exactly when one of them fits; otherwise the first returns both and the second fails |
| `Scheduler.Registry.RecordHeartbeat` | src/master/registry.rs:31-57 | revives a known worker keeping its address, registers an unknown one, changes no other |
| `Scheduler.Registry.AvailableWorkers` | src/master/registry.rs:63-69 | exactly the active workers, in some order |
| `Scheduler.SweepAndList` | src/master/mod.rs:585-589 | after a sweep, selection sees exactly the active workers whose last heartbeat is within the grace period |
| `Scheduler.LeastLoadedIds` | src/master/scheduler.rs:28-37 | exactly the workers of minimum load |
| `Scheduler.LoadWeights` | src/master/scheduler.rs:66-70 | while nothing wraps, a cpu point adds one to the load and a task in flight as much as two of them |
| `Scheduler.RoundRobinScheduler.Walk` | src/master/scheduler.rs:39-58 | chooses the first eligible worker of the queue and rotates it behind, or rotates by one |
| `Scheduler.RoundRobinScheduler.SelectWorker` | src/master/scheduler.rs:18-62 | rebuild, choice and rotation as specified; nothing changes without workers |
| `Scheduler.LightestIff` | src/master/scheduler.rs:18-62 | over every run of listings of one length since a rebuild, a selection is least loaded exactly when some least-loaded worker was active at the rebuild |
| `Scheduler.SelectionIsLightest` | src/master/scheduler.rs:18-62 | a queue over the active workers, or one of another length, yields an active worker of minimum load and stays usable |
| `Scheduler.RunStaysLightest` | src/master/scheduler.rs:18-62 | from a size change on, while the active set stays the same, every selection is least loaded, whatever the loads do |
| `Scheduler.StaleQueueExample` | src/master/scheduler.rs:24-26 | a run of two selections from the empty queue whose second one chooses a worker that is no longer active |
| `Scheduler.FairRotation` | src/master/scheduler.rs:39-50 | with the registry unchanged, m consecutive selections return each of the m least-loaded workers exactly once |
| `Master.Validate` | src/common/dag.rs:79-93 | true iff every join has exactly two incoming edges |
| `TaskContents.ValidatedIff` | src/common/dag.rs:79-93 | valid means that exactly two edges of the list enter every join |
| `Master.QueueTasks` | src/master/mod.rs:168-172 | all new tasks are queued in memory and in the store, other rows are kept |
| `Master.LoadTasks` | src/master/mod.rs:58-117 | rebuilds the jobs from the rows in any order and collects exactly the in-flight tasks |
| `Master.RequeueTasks` | src/master/mod.rs:119-123 | exactly the in-flight rows become queued |
| `Master.MasterNode.constructor` | src/master/mod.rs:46-126 | memory and store after start-up on any store |
| `Master.MasterNode.SubmitJob` | src/master/mod.rs:137-187 | an invalid graph changes nothing; a valid one adds a job with queued tasks to memory and store |
| `Master.JobSnapshot` | src/master/mod.rs:557-561 | queued tasks of one job, each once; all of them when its plan is stable |
| `Master.MasterNode.QueuedTasksSnapshot` | src/master/mod.rs:552-565 | queued tasks of all jobs, each once, complete for every job whose plan is stable |
| `Master.MasterNode.CompleteTask` | src/master/mod.rs:296-457 | the new memory and store for every report, including unknown jobs and other statuses |
| `Master.MasterNode.AssignTask` | src/master/mod.rs:466-487 | the three critical sections of an assignment, one after the other |
| `Master.PlannedIds` | src/master/mod.rs:556-561 | with a stable plan, re-materialising a job names exactly the tasks in its map |
| `Protocol.StepKeepsInv` | src/master/mod.rs:459-572 | every step, including crashes and submissions that hold their own tasks, keeps the invariant over memory, store, activations and counters |
| `Protocol.RunKeepsInv` | src/master/mod.rs:459-572 | the invariant holds in every state of every run without conflicting passes, a submission's own pass included |
| `Protocol.DispatchedAtMostOnce` | src/master/mod.rs:459-572 | at most one activation holds a task and it is dispatched at most once per lifetime |
| `Protocol.SucceededIffAllCompleted` | src/master/mod.rs:350-359 | in every reachable state a job with tasks is Succeeded exactly when all are Completed |
| `Protocol.OneResultPerCompletedTask` | src/master/mod.rs:304-306 | in every reachable state there is one result per completed task and no other |
| `Protocol.RecoveryIsFaithful` | src/master/mod.rs:46-126 | start-up gives each job its status, its tasks with in-flight ones queued, and its results |
| `Protocol.CrashAnywhere` | src/master/mod.rs:466-480 | the same for a crash at any point of any run, also between the memory and the store write of an assignment |
| `Protocol.RecoveringTwice` | src/master/mod.rs:73-123 | on every store, recovering twice equals recovering once |
| `Protocol.CountersConservedIff` | src/master/mod.rs:304-310 | completed, failed and pending add up to total exactly for jobs submitted in this lifetime and recovered jobs without a report |
| `Protocol.CountersCanBreak` | src/master/mod.rs:46-126 | a clean run that submits a job, restarts the master and reports a task ends with counters that do not add up |
| `Protocol.CountersCount` | src/master/mod.rs:142-172 | for submitted jobs the counters equal the numbers of completed tasks, results and failed tasks |
| `Protocol.ProgressBounded` | src/master/mod.rs:373-379 | progress stays between 0 and 100 |
| `Protocol.ProgressIsShare` | src/master/mod.rs:373-379 | for a submitted job with tasks, progress is the completed share in percent, and 100 exactly when all tasks are completed |
| `Statuses.StatusIsLastEvent` | src/master/mod.rs:350-442 | in every reachable state, also after restarts, memory and store give a job the status of the last event that set it: submission, dispatch, failure report, or the report that completed the last task; the error is the last failure's since submission or restart |
| `Statuses.FailedIffLastFailure` | src/master/mod.rs:390-435 | a job is Failed, in memory and in the store, exactly when that event was a failure report |
| `Statuses.FailureFailsJob` | src/master/mod.rs:399-432 | after a failure report the job is Failed in memory and store and carries the message |
| `Statuses.FailedUntilDispatch` | src/master/mod.rs:482-491 | a job leaves Failed only when one of its tasks is about to be sent, and then runs in memory and store |
| `Statuses.ReportIsRecorded` | src/master/mod.rs:300-307 | a report sets the task's status in memory, its row with the result in the store, and appends successes to the job's results |
| `Statuses.RestartQueuesInFlight` | src/master/mod.rs:73-123 | a restart queues exactly the tasks in a worker's hands, in memory and store |
| `Statuses.StartUpContents` | src/master/mod.rs:58-115 | start-up on any store: which jobs there are and what each one is, placeholder jobs for orphaned tasks included |
| `Statuses.StartUpWrites` | src/master/mod.rs:118-123 | start-up changes the stored status of tasks in a worker's hands and nothing else |
| `Protocol.CarelessPassDispatchesTwice` | src/master/mod.rs:552-572 | from every state that satisfies the invariant, a pass that takes a held task can be continued to a second dispatch with no further pass |
| `Protocol.PassDuringSubmission` | src/master/mod.rs:183-191 | a pass that takes a task of a submission that has yet to schedule it can be continued to a second dispatch with no further pass |
| `Protocol.PassIsSafeIff` | src/master/mod.rs:552-572 | no careful continuation dispatches a task twice exactly when the pass takes no task that is still held |
| `Protocol.OnlyRestartRequeues` | src/master/mod.rs:459-572 | no step but a restart makes a task queued that was not |
| `Protocol.JobsStayPlanned` | src/master/mod.rs:552-565 | in every reachable state, also after restarts, a job's tasks are those of a materialisation, as the snapshot needs |
| `Protocol.ReplanningFindsEveryTask` | src/master/mod.rs:556-561 | in every reachable state, also after restarts, materialising a job with a stable plan again names exactly its tasks, each once |
| `Retry.Executor.ExecuteTask` | src/worker/executor.rs:63-104 | at most limit + 1 attempts, stops at the first that does not fail, reports failure only if all failed; exact counter updates |

## Left out

- HTTP handlers, the client, terminal rendering, configuration, logging, benchmarks: plumbing without properties of this kind.
- SQLite and JSON internals, file-system errors and store errors: the store is a pair of maps and writes succeed.
- A crash inside `submit_job` or `complete_task`: their store writes are not one transaction, so each is one step here.
- Reports that arrive from tasks dispatched before a restart: a report answers a dispatch of the current master lifetime, once.
- The job-status table, stage metrics and per-worker aggregates of `complete_task`, and `to_stages`.
- The execution trace, result files and durations of `execute_sync`; panics inside operators are caught there and are not modelled.
- Operators are built when their stage runs, not before the first stage: a pipeline with an operator that cannot be built fails either way, with another message.
- Error texts are shortened; which inputs fail is exact.
- Files that a run finds: `Residency` treats a task as alone with its files and starts without any. A failed attempt of the same task may have left one (`Spill.LeftoverIff` says what is then read back), and parallel tasks of one job on one worker share the bucket files of their shuffles.
- CSV field splitting and number inference, tokenising, number parsing and doubling, Unicode case mapping and trimming: arbitrary functions of their text.
- Float rounding: arithmetic is an arbitrary function, exact only where `Aggregates.Exact` says so.
- Integer width: only the 32-bit load of `compute_load` wraps; record counts, byte counts and counters are unbounded.
- Worker removal and status updates outside heartbeats, semaphores and thread isolation in the worker.
