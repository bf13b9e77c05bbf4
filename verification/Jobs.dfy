// The job table of queue_job: the rows of queue.job, the workers that hold a loaded copy
// of a row while they perform it, and the steps that change them.
//
// One step is one transaction. A worker stores DONE in one step and wakes the dependent
// jobs in a later one, so anything may happen in between, and the later one may never come:
// the controller gives up after some failed tries, and its process may be killed.
module Jobs {
  import opened Graphs

  type Uuid = Vertex

  datatype Option<T> = None | Some(value: T)

  datatype State = WaitDependencies | Pending | Enqueued | Started | Done | Cancelled | Failed

  // maxRetries == 0 means that retries are not limited.
  datatype Job = Job(
    state: State,
    retry: nat,
    maxRetries: nat,
    dependsOn: set<Uuid>,
    reverseDependsOn: set<Uuid>,
    graph: Option<nat>)

  type Rows = map<Uuid, Job>

  // The copy of a row a worker loaded when it started: which job, its retry counter, and
  // whether all parents were done then. The parents are loaded once per Job object.
  datatype Worker = Worker(uuid: Uuid, retry: nat, parentsDone: bool)

  // owed: jobs whose worker has stored DONE and has not yet called enqueue_waiting().
  // everDone: history of the jobs that were done at some time.
  datatype Queue = Queue(rows: Rows, workers: map<nat, Worker>, owed: set<Uuid>, everDone: set<Uuid>)

  // How the job's function ends: a value, NothingToDoJob, RetryableJobError, the same
  // with ignore_retry, a database conflict, or any other exception.
  datatype Outcome = Succeeds | NothingToDo | Retryable | IgnoredRetry | Conflict | Fails

  datatype Verdict = ToDone | ToPostponed | ToFailed

  datatype Step =
    | Enqueue(uuid: Uuid)
    | Start(uuid: Uuid, worker: nat)
    | Finish(worker: nat, outcome: Outcome)
    | Crash(worker: nat)
    | Wake(uuid: Uuid)
    | Abandon(uuid: Uuid)
    | Revive(uuid: Uuid)
    | MarkDone(uuid: Uuid)
    | Requeue(uuid: Uuid)
    | Cancel(uuid: Uuid)
    | RunNow(uuid: Uuid, outcome: Outcome)

  // ------------------------------------------------------------------ single operations

  // The parents that still have a row; load_many() ignores the others.
  predicate AllParentsDone(rows: Rows, j: Uuid)
    requires j in rows
  {
    forall p :: p in rows[j].dependsOn && p in rows ==> rows[p].state == Done
  }

  // perform(): the retry counter afterwards and what the controller does next.
  function Perform(retry: nat, maxRetries: nat, outcome: Outcome): (nat, Verdict) {
    match outcome
    case Succeeds => (retry + 1, ToDone)
    case NothingToDo => (retry + 1, ToDone)
    case Retryable =>
      if maxRetries != 0 && retry + 1 >= maxRetries then (retry + 1, ToFailed) else (retry + 1, ToPostponed)
    case IgnoredRetry => (retry, ToPostponed)
    case Conflict => (retry + 1, ToPostponed)
    case Fails => (retry + 1, ToFailed)
  }

  // The outcomes after which the controller stores DONE.
  predicate IsSuccess(outcome: Outcome) {
    outcome in {Succeeds, NothingToDo}
  }

  // The outcomes after which it stores FAILED: any other exception, and the last retry.
  predicate IsFailure(outcome: Outcome, retry: nat, maxRetries: nat) {
    outcome == Fails || (outcome == Retryable && 0 < maxRetries <= retry + 1)
  }

  // Everything else is put back, and only an uncounted retry is not counted.
  lemma PerformMeaning(retry: nat, maxRetries: nat, outcome: Outcome)
    ensures var (retry', verdict) := Perform(retry, maxRetries, outcome);
      && (verdict == ToDone <==> IsSuccess(outcome))
      && (verdict == ToFailed <==> IsFailure(outcome, retry, maxRetries))
      && retry' == (if outcome == IgnoredRetry then retry else retry + 1)
  {
  }

  // What the row of the worker's job becomes.
  predicate Stored(job: Job, worker: Worker, outcome: Outcome, job': Job) {
    && (job'.state == Done <==> IsSuccess(outcome))
    && (job'.state == Failed <==> IsFailure(outcome, worker.retry, job.maxRetries))
    && (job'.state == Pending <==> !IsSuccess(outcome) && !IsFailure(outcome, worker.retry, job.maxRetries) && worker.parentsDone)
    && (job'.state == WaitDependencies <==>
          !IsSuccess(outcome) && !IsFailure(outcome, worker.retry, job.maxRetries) && !worker.parentsDone)
    && job'.retry == (if outcome == IgnoredRetry then worker.retry else worker.retry + 1)
    && job' == job.(state := job'.state, retry := job'.retry)
  }

  lemma FinishMeaning(q: Queue, w: nat, outcome: Outcome)
    requires w in q.workers && q.workers[w].uuid in q.rows
    ensures var q', j := FinishJob(q, w, outcome), q.workers[w].uuid;
      && j in q'.rows && Stored(q.rows[j], q.workers[w], outcome, q'.rows[j])
      && q'.rows == q.rows[j := q'.rows[j]]
      && q'.owed == (if IsSuccess(outcome) then q.owed + {j} else q.owed)
      && q'.everDone == (if IsSuccess(outcome) then q.everDone + {j} else q.everDone)
  {
    PerformMeaning(q.workers[w].retry, q.rows[q.workers[w].uuid].maxRetries, outcome);
  }

  // The rows the common dependent-jobs query joins and its WHERE clause keeps: waiting
  // children in the same graph all of whose parents there are in the given state.
  predicate Selected(rows: Rows, j: Uuid, need: State, c: Uuid)
    requires j in rows
  {
    && c in rows && c in rows[j].reverseDependsOn
    && rows[j].graph.Some? && rows[c].graph == rows[j].graph
    && rows[c].state == WaitDependencies
    && (exists p :: p in rows[c].dependsOn && p in rows && rows[p].graph == rows[j].graph)
    && (forall p :: p in rows[c].dependsOn && p in rows && rows[p].graph == rows[j].graph ==> rows[p].state == need)
  }

  function UpdateDependents(rows: Rows, j: Uuid, need: State, to: State): Rows
    requires j in rows
  {
    map c | c in rows :: if Selected(rows, j, need, c) then rows[c].(state := to) else rows[c]
  }

  function WithState(rows: Rows, j: Uuid, state: State): Rows
    requires j in rows
  {
    rows[j := rows[j].(state := state)]
  }

  function WithOutcome(rows: Rows, j: Uuid, state: State, retry: nat): Rows
    requires j in rows
  {
    rows[j := rows[j].(state := state, retry := retry)]
  }

  // The WHERE clause and CASE expressions of the query that requeues dead jobs.
  function Revived(job: Job): Job {
    job.(state := if job.maxRetries != 0 && job.retry > job.maxRetries then Failed else Pending,
         retry := if job.state == Started then job.retry + 1 else job.retry)
  }

  // ------------------------------------------------------------------ steps

  predicate Enabled(q: Queue, step: Step) {
    match step
    case Enqueue(j) => j in q.rows && q.rows[j].state == Pending
    case Start(j, w) => j in q.rows && q.rows[j].state == Enqueued && w !in q.workers
    case Finish(w, _) => w in q.workers && q.workers[w].uuid in q.rows
    case Crash(w) => w in q.workers
    case Wake(j) => j in q.owed && j in q.rows
    case Abandon(j) => j in q.owed
    case Revive(j) =>
      && j in q.rows && q.rows[j].state in {Enqueued, Started}
      && forall w :: w in q.workers ==> q.workers[w].uuid != j
    case MarkDone(j) => j in q.rows
    case Requeue(j) => j in q.rows && q.rows[j].state != WaitDependencies
    case Cancel(j) => j in q.rows
    case RunNow(j, _) => j in q.rows
  }

  function Released(parentsDone: bool): State {
    if parentsDone then Pending else WaitDependencies
  }

  function FinishJob(q: Queue, w: nat, outcome: Outcome): Queue
    requires w in q.workers && q.workers[w].uuid in q.rows
  {
    var j := q.workers[w].uuid;
    var (retry, verdict) := Perform(q.workers[w].retry, q.rows[j].maxRetries, outcome);
    var idle := q.(workers := q.workers - {w});
    match verdict
    case ToDone =>
      idle.(rows := WithOutcome(q.rows, j, Done, retry), owed := q.owed + {j}, everDone := q.everDone + {j})
    case ToPostponed =>
      idle.(rows := WithOutcome(q.rows, j, Released(q.workers[w].parentsDone), retry))
    case ToFailed =>
      idle.(rows := WithOutcome(q.rows, j, Failed, retry))
  }

  // action_run_now() calls enqueue_waiting() while the row is still STARTED and stores
  // DONE only afterwards. When the job raises, the transaction is rolled back.
  function RunJobNow(q: Queue, j: Uuid, outcome: Outcome): Queue
    requires j in q.rows
  {
    if outcome != Succeeds then q
    else
      var started := WithState(q.rows, j, Started);
      var woken := UpdateDependents(started, j, Done, Pending);
      q.(rows := WithOutcome(woken, j, Done, q.rows[j].retry + 1), everDone := q.everDone + {j})
  }

  function Next(q: Queue, step: Step): Queue
    requires Enabled(q, step)
  {
    match step
    case Enqueue(j) => q.(rows := WithState(q.rows, j, Enqueued))
    case Start(j, w) =>
      q.(rows := WithState(q.rows, j, Started),
         workers := q.workers[w := Worker(j, q.rows[j].retry, AllParentsDone(q.rows, j))])
    case Finish(w, outcome) => FinishJob(q, w, outcome)
    case Crash(w) => q.(workers := q.workers - {w})
    case Wake(j) => q.(rows := UpdateDependents(q.rows, j, Done, Pending), owed := q.owed - {j})
    case Abandon(j) => q.(owed := q.owed - {j})
    case Revive(j) => q.(rows := q.rows[j := Revived(q.rows[j])])
    case MarkDone(j) =>
      q.(rows := UpdateDependents(WithState(q.rows, j, Done), j, Done, Pending), everDone := q.everDone + {j})
    case Requeue(j) => q.(rows := WithOutcome(q.rows, j, Released(AllParentsDone(q.rows, j)), 0))
    case Cancel(j) => q.(rows := UpdateDependents(WithState(q.rows, j, Cancelled), j, Cancelled, Cancelled))
    case RunNow(j, outcome) => RunJobNow(q, j, outcome)
  }

  predicate Runnable(q: Queue, steps: seq<Step>)
    decreases |steps|
  {
    steps == [] || (Enabled(q, steps[0]) && Runnable(Next(q, steps[0]), steps[1..]))
  }

  function Run(q: Queue, steps: seq<Step>): Queue
    requires Runnable(q, steps)
    decreases |steps|
  {
    if steps == [] then q else Run(Next(q, steps[0]), steps[1..])
  }

  lemma RunStep(q: Queue, step: Step, steps: seq<Step>)
    requires Enabled(q, step) && Runnable(Next(q, step), steps)
    ensures Runnable(q, [step] + steps) && Run(q, [step] + steps) == Run(Next(q, step), steps)
  {
    var all := [step] + steps;
    assert all[0] == step && all[1..] == steps;
  }

  // ------------------------------------------------------------------ structure of the table

  // The dependencies of the rows as a graph from parents to children.
  function Dependencies(rows: Rows): Links {
    map j | j in rows :: rows[j].reverseDependsOn
  }

  // Both directions of every dependency are stored, inside one graph.
  ghost predicate WellLinked(rows: Rows) {
    forall j :: j in rows ==>
      && rows[j].dependsOn <= rows.Keys && rows[j].reverseDependsOn <= rows.Keys
      && j !in rows[j].dependsOn
      && (forall p :: p in rows[j].dependsOn ==>
            j in rows[p].reverseDependsOn && rows[p].graph == rows[j].graph && rows[j].graph.Some?)
      && (forall c :: c in rows[j].reverseDependsOn ==> j in rows[c].dependsOn)
  }

  // Steps change states and counters only.
  ghost predicate SameStructure(rows: Rows, rows': Rows) {
    && rows'.Keys == rows.Keys
    && forall j :: j in rows ==> rows'[j] == rows[j].(state := rows'[j].state, retry := rows'[j].retry)
  }

  // The query changes waiting rows only, and only their state.
  lemma QueryMeaning(rows: Rows, j: Uuid, need: State, to: State)
    requires j in rows
    ensures var rows' := UpdateDependents(rows, j, need, to);
      SameStructure(rows, rows') &&
      forall c :: c in rows ==>
        || rows'[c] == rows[c]
        || (rows[c].state == WaitDependencies && rows'[c] == rows[c].(state := to) && Selected(rows, j, need, c))
  {
  }

  lemma StepsKeepStructure(q: Queue, step: Step)
    requires Enabled(q, step)
    ensures SameStructure(q.rows, Next(q, step).rows)
  {
    hide Selected, AllParentsDone, Perform;
  }

  lemma SameStructureWellLinked(rows: Rows, rows': Rows)
    requires WellLinked(rows) && SameStructure(rows, rows')
    ensures WellLinked(rows')
  {
    forall j | j in rows'
      ensures rows'[j].dependsOn == rows[j].dependsOn && rows'[j].reverseDependsOn == rows[j].reverseDependsOn
      ensures rows'[j].graph == rows[j].graph
    {
    }
  }

  // In a well-linked table the query selects exactly the waiting children whose parents
  // are all in the wanted state.
  lemma SelectedMeaning(rows: Rows, j: Uuid, need: State, c: Uuid)
    requires WellLinked(rows) && j in rows
    ensures Selected(rows, j, need, c) <==>
      && c in rows && j in rows[c].dependsOn && rows[c].state == WaitDependencies
      && forall p :: p in rows[c].dependsOn ==> rows[p].state == need
  {
    if c in rows && j in rows[c].dependsOn {
      assert rows[j].graph == rows[c].graph;
    }
  }
}
