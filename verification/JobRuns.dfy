// Runs that nobody interferes with by hand: what the retry counter counts, how often a job
// is started and performed, and which runs can go on for ever.
module JobRuns {
  import opened Jobs
  import opened JobSafety

  // What the runner, the controller and failing processes do on their own.
  predicate Unattended(step: Step) {
    !step.MarkDone? && !step.Requeue? && !step.Cancel? && !step.RunNow?
  }

  predicate AllUnattended(steps: seq<Step>) {
    forall i :: 0 <= i < |steps| ==> Unattended(steps[i])
  }

  predicate IsLive(s: State) {
    s in {WaitDependencies, Pending, Enqueued, Started}
  }

  // Every worker holds the current copy of its own started job, and only jobs of the table
  // owe wake-ups.
  ghost predicate Synced(q: Queue) {
    && (forall w :: w in q.workers ==>
          && q.workers[w].uuid in q.rows
          && q.rows[q.workers[w].uuid].state == Started
          && q.workers[w].retry == q.rows[q.workers[w].uuid].retry)
    && (forall v, w :: v in q.workers && w in q.workers && q.workers[v].uuid == q.workers[w].uuid ==> v == w)
    && q.owed <= q.rows.Keys
  }

  lemma StaysSynced(q: Queue, step: Step)
    requires Synced(q) && Enabled(q, step) && Unattended(step)
    ensures Synced(Next(q, step)) && Next(q, step).rows.Keys == q.rows.Keys
  {
    hide AllParentsDone, UpdateDependents, Selected, Perform, Revived;
    if step.Wake? {
      QueryMeaning(q.rows, step.uuid, Done, Pending);
    } else if step.Finish? {
      hide Synced;
      FinishStaysSynced(q, step.worker, step.outcome);
    }
  }

  lemma FinishStaysSynced(q: Queue, w: nat, outcome: Outcome)
    requires Synced(q) && Enabled(q, Finish(w, outcome))
    ensures Synced(Next(q, Finish(w, outcome))) && Next(q, Finish(w, outcome)).rows.Keys == q.rows.Keys
  {
    hide AllParentsDone, Perform;
  }

  // ------------------------------------------------------------------ what is counted

  // For one job: how often it was started, how often an attempt of it ended, how many of
  // these ends were not counted, and how often it was found dead after being started.
  datatype Tally = Tally(starts: nat, performed: nat, ignored: nat, deaths: nat) {
    function Plus(t: Tally): Tally {
      Tally(starts + t.starts, performed + t.performed, ignored + t.ignored, deaths + t.deaths)
    }
  }

  predicate EndsAttempt(q: Queue, step: Step, j: Uuid)
    requires Enabled(q, step)
  {
    step.Finish? && q.workers[step.worker].uuid == j
  }

  function Counts(q: Queue, step: Step, j: Uuid): Tally
    requires Enabled(q, step)
  {
    Tally(if step.Start? && step.uuid == j then 1 else 0,
          if EndsAttempt(q, step, j) then 1 else 0,
          if EndsAttempt(q, step, j) && step.outcome == IgnoredRetry then 1 else 0,
          if step.Revive? && step.uuid == j && q.rows[j].state == Started then 1 else 0)
  }

  function TallyOf(q: Queue, steps: seq<Step>, j: Uuid): Tally
    requires Runnable(q, steps)
    decreases |steps|
  {
    if steps == [] then Tally(0, 0, 0, 0)
    else Counts(q, steps[0], j).Plus(TallyOf(Next(q, steps[0]), steps[1..], j))
  }

  lemma StepCounts(q: Queue, step: Step, j: Uuid)
    requires Synced(q) && Enabled(q, step) && Unattended(step) && j in q.rows
    ensures j in Next(q, step).rows && Next(q, step).rows[j].maxRetries == q.rows[j].maxRetries
    ensures var t := Counts(q, step, j);
      Next(q, step).rows[j].retry + t.ignored == q.rows[j].retry + t.performed + t.deaths
  {
    hide AllParentsDone, UpdateDependents, Selected;
    if step.Wake? { QueryMeaning(q.rows, step.uuid, Done, Pending); }
  }

  // The retry counter is exact over all unattended runs: it counts the attempts that ended,
  // less the uncounted ones, and the deaths.
  lemma {:induction false} CounterIsExact(q: Queue, steps: seq<Step>, j: Uuid)
    requires Synced(q) && Runnable(q, steps) && AllUnattended(steps) && j in q.rows
    ensures j in Run(q, steps).rows && Run(q, steps).rows[j].maxRetries == q.rows[j].maxRetries
    ensures var t := TallyOf(q, steps, j);
      Run(q, steps).rows[j].retry + t.ignored == q.rows[j].retry + t.performed + t.deaths
    decreases |steps|
  {
    if steps != [] {
      assert Unattended(steps[0]);
      hide Next, Enabled, Synced, Counts;
      StepCounts(q, steps[0], j);
      StaysSynced(q, steps[0]);
      CounterIsExact(Next(q, steps[0]), steps[1..], j);
    }
  }

  // ------------------------------------------------------------------ the limit on attempts

  // Retries are limited, and a job that may still be performed has one left.
  predicate HasRetries(job: Job) {
    0 < job.maxRetries && job.retry <= job.maxRetries && (IsLive(job.state) ==> job.retry < job.maxRetries)
  }

  ghost predicate Tidy(q: Queue) {
    Synced(q) && forall j :: j in q.rows ==> HasRetries(q.rows[j])
  }

  // A conflict on the last counted attempt of j: it is retried all the same.
  predicate Overruns(q: Queue, step: Step, j: Uuid)
    requires Enabled(q, step)
  {
    && EndsAttempt(q, step, j) && step.outcome == Conflict && j in q.rows
    && q.workers[step.worker].retry + 1 >= q.rows[j].maxRetries
  }

  lemma FinishKeepsRetries(q: Queue, w: nat, outcome: Outcome)
    requires Synced(q) && Enabled(q, Finish(w, outcome)) && HasRetries(q.rows[q.workers[w].uuid])
    ensures var j := q.workers[w].uuid;
      HasRetries(Next(q, Finish(w, outcome)).rows[j]) <==> !Overruns(q, Finish(w, outcome), j)
  {
    hide AllParentsDone;
  }

  // After an attempt ends, every job is within its limit if and only if that was no conflict
  // on a last attempt.
  lemma FinishStaysTidyExactly(q: Queue, w: nat, outcome: Outcome)
    requires Tidy(q) && Enabled(q, Finish(w, outcome))
    ensures Tidy(Next(q, Finish(w, outcome))) <==> !Overruns(q, Finish(w, outcome), q.workers[w].uuid)
  {
    var j, q' := q.workers[w].uuid, Next(q, Finish(w, outcome));
    FinishKeepsRetries(q, w, outcome);
    StaysSynced(q, Finish(w, outcome));
    assert forall i :: i in q.rows && i != j ==> q'.rows[i] == q.rows[i];
    hide Next, Synced, HasRetries;
  }

  predicate NeverOverruns(q: Queue, steps: seq<Step>, j: Uuid)
    requires Runnable(q, steps)
    decreases |steps|
  {
    steps == [] || (!Overruns(q, steps[0], j) && NeverOverruns(Next(q, steps[0]), steps[1..], j))
  }

  lemma StepKeepsRetries(q: Queue, step: Step, j: Uuid)
    requires Synced(q) && Enabled(q, step) && Unattended(step) && j in q.rows && HasRetries(q.rows[j])
    requires !Overruns(q, step, j) && Counts(q, step, j).deaths == 0
    ensures j in Next(q, step).rows && HasRetries(Next(q, step).rows[j])
  {
    hide AllParentsDone, UpdateDependents, Selected;
    if step.Wake? { QueryMeaning(q.rows, step.uuid, Done, Pending); }
    if EndsAttempt(q, step, j) { FinishKeepsRetries(q, step.worker, step.outcome); }
  }

  // Over all unattended runs in which the job is not found dead: it is performed more than
  // max_retries times, uncounted attempts aside, only after a conflict on a last attempt.
  lemma {:induction false} PerformedAtMostMaxRetries(q: Queue, steps: seq<Step>, j: Uuid)
    requires Synced(q) && Runnable(q, steps) && AllUnattended(steps) && j in q.rows && HasRetries(q.rows[j])
    requires NeverOverruns(q, steps, j) && TallyOf(q, steps, j).deaths == 0
    ensures j in Run(q, steps).rows && HasRetries(Run(q, steps).rows[j])
    ensures q.rows[j].retry + TallyOf(q, steps, j).performed <= q.rows[j].maxRetries + TallyOf(q, steps, j).ignored
    decreases |steps|
  {
    CounterIsExact(q, steps, j);
    if steps != [] {
      assert Unattended(steps[0]);
      hide Next, Enabled, Synced, HasRetries;
      StepKeepsRetries(q, steps[0], j);
      StaysSynced(q, steps[0]);
      PerformedAtMostMaxRetries(Next(q, steps[0]), steps[1..], j);
    }
    assert HasRetries(Run(q, steps).rows[j]);
  }

  // ------------------------------------------------------------------ the limit on starts

  // Dead jobs are found dead only beyond max_retries, one start later than failing ones.
  predicate HasStarts(job: Job) {
    0 < job.maxRetries && (IsLive(job.state) ==> job.retry <= job.maxRetries + 1)
  }

  // How often the job can still be started.
  function StartsLeft(job: Job): int {
    if !IsLive(job.state) then 0
    else job.maxRetries + 2 - job.retry - if job.state == Started then 1 else 0
  }

  predicate ConflictBeyond(q: Queue, step: Step, j: Uuid)
    requires Enabled(q, step)
  {
    && EndsAttempt(q, step, j) && step.outcome == Conflict && j in q.rows
    && q.workers[step.worker].retry > q.rows[j].maxRetries
  }

  lemma StepKeepsStarts(q: Queue, step: Step, j: Uuid)
    requires Synced(q) && Enabled(q, step) && Unattended(step) && j in q.rows && HasStarts(q.rows[j])
    requires !ConflictBeyond(q, step, j)
    ensures j in Next(q, step).rows && HasStarts(Next(q, step).rows[j])
    ensures var t := Counts(q, step, j);
      t.starts + StartsLeft(Next(q, step).rows[j]) <= StartsLeft(q.rows[j]) + t.ignored
  {
    hide AllParentsDone, UpdateDependents, Selected;
    if step.Wake? { QueryMeaning(q.rows, step.uuid, Done, Pending); }
  }

  predicate NoConflictBeyond(q: Queue, steps: seq<Step>, j: Uuid)
    requires Runnable(q, steps)
    decreases |steps|
  {
    steps == [] || (!ConflictBeyond(q, steps[0], j) && NoConflictBeyond(Next(q, steps[0]), steps[1..], j))
  }

  // Over all unattended runs, deaths included, without a conflict beyond max_retries: a job
  // is started at most max_retries + 2 times, uncounted attempts aside.
  lemma {:induction false} StartsAreBounded(q: Queue, steps: seq<Step>, j: Uuid)
    requires Synced(q) && Runnable(q, steps) && AllUnattended(steps) && j in q.rows && HasStarts(q.rows[j])
    requires NoConflictBeyond(q, steps, j)
    ensures j in Run(q, steps).rows && HasStarts(Run(q, steps).rows[j])
    ensures var t := TallyOf(q, steps, j);
      t.starts + StartsLeft(Run(q, steps).rows[j]) <= StartsLeft(q.rows[j]) + t.ignored
    ensures TallyOf(q, steps, j).starts <= q.rows[j].maxRetries + 2 + TallyOf(q, steps, j).ignored
    decreases |steps|
  {
    if steps != [] {
      assert Unattended(steps[0]);
      hide Next, Enabled, Synced, Counts;
      StepKeepsStarts(q, steps[0], j);
      StaysSynced(q, steps[0]);
      StartsAreBounded(Next(q, steps[0]), steps[1..], j);
    }
  }

  lemma TallyStep(q: Queue, step: Step, steps: seq<Step>, j: Uuid)
    requires Enabled(q, step) && Runnable(Next(q, step), steps)
    ensures Runnable(q, [step] + steps) && Run(q, [step] + steps) == Run(Next(q, step), steps)
    ensures TallyOf(q, [step] + steps, j) == Counts(q, step, j).Plus(TallyOf(Next(q, step), steps, j))
  {
    RunStep(q, step, steps);
    assert ([step] + steps)[0] == step && ([step] + steps)[1..] == steps;
  }

  // The job after it was enqueued, started, killed and found dead.
  function AfterDeath(q: Queue, j: Uuid): Queue
    requires j in q.rows
  {
    q.(rows := q.rows[j := Revived(q.rows[j].(state := Started))])
  }

  lemma FourSteps(q: Queue, j: Uuid, w: nat) returns (q1: Queue, q2: Queue, q3: Queue)
    requires j in q.rows && q.rows[j].state == Pending && w !in q.workers
    requires forall v :: v in q.workers ==> q.workers[v].uuid != j
    ensures Enabled(q, Enqueue(j)) && q1 == Next(q, Enqueue(j)) && Counts(q, Enqueue(j), j) == Tally(0, 0, 0, 0)
    ensures Enabled(q1, Start(j, w)) && q2 == Next(q1, Start(j, w)) && Counts(q1, Start(j, w), j) == Tally(1, 0, 0, 0)
    ensures Enabled(q2, Crash(w)) && q3 == Next(q2, Crash(w)) && Counts(q2, Crash(w), j) == Tally(0, 0, 0, 0)
    ensures Enabled(q3, Revive(j)) && Counts(q3, Revive(j), j) == Tally(0, 0, 0, 1)
    ensures Next(q3, Revive(j)) == AfterDeath(q, j)
  {
    hide AllParentsDone;
    q1 := Next(q, Enqueue(j));
    q2 := Next(q1, Start(j, w));
    q3 := Next(q2, Crash(w));
    assert q3.workers == q.workers;
    assert q3.rows == q.rows[j := q.rows[j].(state := Started)];
  }

  lemma NoSteps(q: Queue, j: Uuid)
    ensures Runnable(q, []) && Run(q, []) == q && TallyOf(q, [], j) == Tally(0, 0, 0, 0)
  {
  }

  function DeathSteps(j: Uuid, w: nat, steps: seq<Step>): seq<Step> {
    [Enqueue(j)] + ([Start(j, w)] + ([Crash(w)] + ([Revive(j)] + steps)))
  }

  lemma OneDeath(q: Queue, j: Uuid, w: nat, steps: seq<Step>)
    requires j in q.rows && q.rows[j].state == Pending && w !in q.workers
    requires forall v :: v in q.workers ==> q.workers[v].uuid != j
    requires Runnable(AfterDeath(q, j), steps)
    ensures Runnable(q, DeathSteps(j, w, steps)) && Run(q, DeathSteps(j, w, steps)) == Run(AfterDeath(q, j), steps)
    ensures TallyOf(q, DeathSteps(j, w, steps), j) == Tally(1, 0, 0, 1).Plus(TallyOf(AfterDeath(q, j), steps, j))
  {
    hide Next, Enabled, Counts, Runnable, Run, TallyOf, AfterDeath;
    var q1, q2, q3 := FourSteps(q, j, w);
    TallyStep(q3, Revive(j), steps, j);
    TallyStep(q2, Crash(w), [Revive(j)] + steps, j);
    TallyStep(q1, Start(j, w), [Crash(w)] + ([Revive(j)] + steps), j);
    TallyStep(q, Enqueue(j), [Start(j, w)] + ([Crash(w)] + ([Revive(j)] + steps)), j);
  }

  // The bound is attained: a job whose worker is killed every time is started that often
  // before it fails.
  lemma {:induction false} KilledUntilFailed(q: Queue, j: Uuid, w: nat) returns (steps: seq<Step>)
    requires j in q.rows && q.rows[j].state == Pending && HasStarts(q.rows[j]) && w !in q.workers
    requires forall v :: v in q.workers ==> q.workers[v].uuid != j
    ensures Runnable(q, steps) && j in Run(q, steps).rows && Run(q, steps).rows[j].state == Failed
    ensures TallyOf(q, steps, j).starts == q.rows[j].maxRetries + 2 - q.rows[j].retry
    decreases q.rows[j].maxRetries + 2 - q.rows[j].retry
  {
    hide DeathSteps, Runnable, Run, TallyOf;
    var rest: seq<Step> := [];
    NoSteps(AfterDeath(q, j), j);
    if q.rows[j].retry <= q.rows[j].maxRetries {
      rest := KilledUntilFailed(AfterDeath(q, j), j, w);
    }
    OneDeath(q, j, w, rest);
    steps := DeathSteps(j, w, rest);
  }

  // ------------------------------------------------------------------ runs that end

  function Weight(job: Job): nat {
    var left := if job.retry < job.maxRetries + 2 then job.maxRetries + 2 - job.retry else 0;
    match job.state
    case WaitDependencies => 6 * left + 3
    case Pending => 6 * left + 3
    case Enqueued => 6 * left + 2
    case Started => 6 * left
    case _ => 0
  }

  ghost function Total(rows: Rows): nat
    decreases |rows|
  {
    if rows == map[] then 0
    else
      var j :| j in rows;
      Weight(rows[j]) + Total(rows - {j})
  }

  lemma {:induction false} TotalSplits(rows: Rows, j: Uuid)
    requires j in rows
    ensures Total(rows) == Weight(rows[j]) + Total(rows - {j})
    decreases |rows|
  {
    var i :| i in rows && Total(rows) == Weight(rows[i]) + Total(rows - {i});
    if i != j {
      TotalSplits(rows - {i}, j);
      TotalSplits(rows - {j}, i);
      assert rows - {i} - {j} == rows - {j} - {i};
    }
  }

  lemma {:induction false} TotalMonotone(rows: Rows, rows': Rows)
    requires rows.Keys == rows'.Keys
    requires forall j :: j in rows ==> Weight(rows'[j]) <= Weight(rows[j])
    ensures Total(rows') <= Total(rows)
    decreases |rows|
  {
    if rows != map[] {
      var j :| j in rows;
      TotalSplits(rows, j);
      TotalSplits(rows', j);
      TotalMonotone(rows - {j}, rows' - {j});
    } else {
      assert rows' == map[];
    }
  }

  lemma TotalWithOne(rows: Rows, j: Uuid, job: Job)
    requires j in rows
    ensures Total(rows[j := job]) + Weight(rows[j]) == Total(rows) + Weight(job)
  {
    TotalSplits(rows, j);
    TotalSplits(rows[j := job], j);
    assert rows[j := job] - {j} == rows - {j};
  }

  ghost function Measure(q: Queue): nat {
    Total(q.rows) + |q.owed| + |q.workers|
  }

  // Two steps can repeat: an attempt that is not counted, and the revival of a job that was
  // enqueued and never started.
  function Repeats(q: Queue, step: Step): nat
    requires Enabled(q, step)
  {
    if step.Finish? && step.outcome == IgnoredRetry then 3
    else if step.Revive? && q.rows[step.uuid].state == Enqueued then 2
    else 0
  }

  function AllRepeats(q: Queue, steps: seq<Step>): nat
    requires Runnable(q, steps)
    decreases |steps|
  {
    if steps == [] then 0 else Repeats(q, steps[0]) + AllRepeats(Next(q, steps[0]), steps[1..])
  }

  lemma OneWeightChanges(q: Queue, q': Queue, j: Uuid)
    requires j in q.rows && q'.rows.Keys == q.rows.Keys
    requires forall i :: i in q.rows && i != j ==> q'.rows[i] == q.rows[i]
    ensures Total(q'.rows) + Weight(q.rows[j]) == Total(q.rows) + Weight(q'.rows[j])
  {
    TotalWithOne(q.rows, j, q'.rows[j]);
    assert q'.rows == q.rows[j := q'.rows[j]];
  }

  lemma WakeLowers(q: Queue, j: Uuid)
    requires Enabled(q, Wake(j))
    ensures Measure(Next(q, Wake(j))) < Measure(q)
  {
    QueryMeaning(q.rows, j, Done, Pending);
    hide UpdateDependents;
    TotalMonotone(q.rows, UpdateDependents(q.rows, j, Done, Pending));
    assert |q.owed| == |q.owed - {j}| + 1;
  }

  lemma OneWorkerLess(workers: map<nat, Worker>, w: nat)
    requires w in workers
    ensures |workers - {w}| + 1 == |workers|
  {
    assert |workers| == |workers.Keys| && (workers - {w}).Keys == workers.Keys - {w};
  }

  lemma OwedOneMore(owed: set<Uuid>, j: Uuid)
    ensures |owed + {j}| <= |owed| + 1
  {
    if j in owed { assert owed + {j} == owed; }
  }

  lemma FinishWeighs(q: Queue, w: nat, outcome: Outcome)
    requires Synced(q) && Enabled(q, Finish(w, outcome)) && HasStarts(q.rows[q.workers[w].uuid])
    requires !ConflictBeyond(q, Finish(w, outcome), q.workers[w].uuid)
    ensures var j := q.workers[w].uuid;
      var job' := Next(q, Finish(w, outcome)).rows[j];
      && Weight(job') <= Weight(q.rows[j]) + Repeats(q, Finish(w, outcome))
      && (job'.state == Done ==> Weight(job') + 6 <= Weight(q.rows[j]))
  {
    hide AllParentsDone;
  }

  lemma FinishLowers(q: Queue, w: nat, outcome: Outcome)
    requires Synced(q) && Enabled(q, Finish(w, outcome)) && HasStarts(q.rows[q.workers[w].uuid])
    requires !ConflictBeyond(q, Finish(w, outcome), q.workers[w].uuid)
    ensures Measure(Next(q, Finish(w, outcome))) < Measure(q) + Repeats(q, Finish(w, outcome))
  {
    hide AllParentsDone, Synced, HasStarts, ConflictBeyond, Weight, Repeats, Perform;
    var j, q' := q.workers[w].uuid, Next(q, Finish(w, outcome));
    FinishWeighs(q, w, outcome);
    OneWeightChanges(q, q', j);
    OneWorkerLess(q.workers, w);
    OwedOneMore(q.owed, j);
  }

  lemma StartLowers(q: Queue, j: Uuid, w: nat)
    requires Enabled(q, Start(j, w))
    ensures Measure(Next(q, Start(j, w))) < Measure(q)
  {
    hide AllParentsDone, Total;
    var q' := Next(q, Start(j, w));
    OneWeightChanges(q, q', j);
    OneWorkerLess(q'.workers, w);
    assert q'.workers - {w} == q.workers;
  }

  lemma CrashLowers(q: Queue, w: nat)
    requires Enabled(q, Crash(w))
    ensures Measure(Next(q, Crash(w))) < Measure(q)
  {
    hide Total;
    OneWorkerLess(q.workers, w);
  }

  lemma RowsLower(q: Queue, step: Step)
    requires Enabled(q, step) && (step.Enqueue? || step.Revive?) && HasStarts(q.rows[step.uuid])
    ensures Measure(Next(q, step)) < Measure(q) + Repeats(q, step)
  {
    hide Total;
    OneWeightChanges(q, Next(q, step), step.uuid);
  }

  lemma StepLowers(q: Queue, step: Step)
    requires Synced(q) && Enabled(q, step) && Unattended(step)
    requires forall j :: j in q.rows ==> HasStarts(q.rows[j]) && !ConflictBeyond(q, step, j)
    ensures Measure(Next(q, step)) < Measure(q) + Repeats(q, step)
  {
    hide Measure, HasStarts;
    match step
    case Enqueue(j) => RowsLower(q, step);
    case Revive(j) => RowsLower(q, step);
    case Start(j, w) => StartLowers(q, j, w);
    case Crash(w) => CrashLowers(q, w);
    case Finish(w, outcome) => FinishLowers(q, w, outcome);
    case Wake(j) => WakeLowers(q, j);
    case Abandon(j) => AbandonLowers(q, j);
  }

  lemma AbandonLowers(q: Queue, j: Uuid)
    requires Enabled(q, Abandon(j))
    ensures Measure(Next(q, Abandon(j))) < Measure(q)
  {
    assert |q.owed| == |q.owed - {j}| + 1;
  }

  // Every unattended run is bounded, up to its uncounted attempts and revivals of jobs that
  // were only enqueued, as long as no conflict goes beyond max_retries.
  lemma {:induction false} UnattendedRunsEnd(q: Queue, steps: seq<Step>)
    requires Synced(q) && Runnable(q, steps) && AllUnattended(steps)
    requires forall j :: j in q.rows ==> HasStarts(q.rows[j]) && NoConflictBeyond(q, steps, j)
    ensures |steps| + Measure(Run(q, steps)) <= Measure(q) + AllRepeats(q, steps)
    decreases |steps|
  {
    if steps != [] {
      assert Unattended(steps[0]);
      hide Next, Enabled, Synced, HasStarts, Measure, Repeats, ConflictBeyond;
      StaysSynced(q, steps[0]);
      forall j | j in q.rows
        ensures HasStarts(q.rows[j]) && !ConflictBeyond(q, steps[0], j)
        ensures HasStarts(Next(q, steps[0]).rows[j]) && NoConflictBeyond(Next(q, steps[0]), steps[1..], j)
      {
        assert NoConflictBeyond(q, steps, j);
        StepKeepsStarts(q, steps[0], j);
      }
      StepLowers(q, steps[0]);
      UnattendedRunsEnd(Next(q, steps[0]), steps[1..]);
    }
  }

  // A job that keeps asking for an uncounted retry goes round in a circle and brings the
  // table back to where it was.
  lemma IgnoredRetryGoesRound(q: Queue, j: Uuid, w: nat)
    requires j in q.rows && q.rows[j].state == Enqueued && w !in q.workers && AllParentsDone(q.rows, j)
    ensures var steps := [Start(j, w), Finish(w, IgnoredRetry), Enqueue(j)];
      Runnable(q, steps) && Run(q, steps) == q
  {
    var q1 := Next(q, Start(j, w));
    var q2 := Next(q1, Finish(w, IgnoredRetry));
    var q3 := Next(q2, Enqueue(j));
    assert q3.workers == q.workers && q3.rows == q.rows;
    RunStep(q2, Enqueue(j), []);
    RunStep(q1, Finish(w, IgnoredRetry), [Enqueue(j)]);
    RunStep(q, Start(j, w), [Finish(w, IgnoredRetry), Enqueue(j)]);
    assert [Start(j, w)] + [Finish(w, IgnoredRetry), Enqueue(j)] == [Start(j, w), Finish(w, IgnoredRetry), Enqueue(j)];
    assert [Finish(w, IgnoredRetry)] + [Enqueue(j)] == [Finish(w, IgnoredRetry), Enqueue(j)];
    assert [Enqueue(j)] + [] == [Enqueue(j)];
  }

  // A database conflict is retried whatever the counter says: each round only adds one to
  // it, past max_retries too.
  lemma ConflictIsAlwaysRetried(q: Queue, j: Uuid, w: nat)
    requires j in q.rows && q.rows[j].state == Enqueued && w !in q.workers && AllParentsDone(q.rows, j)
    ensures var steps := [Start(j, w), Finish(w, Conflict), Enqueue(j)];
      Runnable(q, steps) && Run(q, steps) == q.(rows := WithOutcome(q.rows, j, Enqueued, q.rows[j].retry + 1))
  {
    var q1 := Next(q, Start(j, w));
    var q2 := Next(q1, Finish(w, Conflict));
    var q3 := Next(q2, Enqueue(j));
    assert q3.workers == q.workers && q3.rows == WithOutcome(q.rows, j, Enqueued, q.rows[j].retry + 1);
    RunStep(q2, Enqueue(j), []);
    RunStep(q1, Finish(w, Conflict), [Enqueue(j)]);
    RunStep(q, Start(j, w), [Finish(w, Conflict), Enqueue(j)]);
    assert [Start(j, w)] + [Finish(w, Conflict), Enqueue(j)] == [Start(j, w), Finish(w, Conflict), Enqueue(j)];
    assert [Finish(w, Conflict)] + [Enqueue(j)] == [Finish(w, Conflict), Enqueue(j)];
    assert [Enqueue(j)] + [] == [Enqueue(j)];
  }

  // A job that is enqueued, and revived before any worker takes it, goes round as well.
  lemma RevivalGoesRound(q: Queue, j: Uuid)
    requires j in q.rows && q.rows[j].state == Pending
    requires q.rows[j].maxRetries != 0 ==> q.rows[j].retry <= q.rows[j].maxRetries
    requires forall v :: v in q.workers ==> q.workers[v].uuid != j
    ensures var steps := [Enqueue(j)] + ([Revive(j)] + []);
      Runnable(q, steps) && Run(q, steps) == q
  {
    var q1 := Next(q, Enqueue(j));
    var q2 := Next(q1, Revive(j));
    assert q2.rows == q.rows;
    RunStep(q1, Revive(j), []);
    RunStep(q, Enqueue(j), [Revive(j)] + []);
  }

  // ------------------------------------------------------------------ jobs that are lost

  // A waiting job whose parents are all done and owe it nothing.
  ghost predicate Lost(q: Queue, j: Uuid) {
    && j in q.rows && q.rows[j].state == WaitDependencies
    && AllParentsDone(q.rows, j) && !OwedParent(q, j)
  }

  // A step that leaves the job, its done parents and what they owe alone.
  lemma StaysLost(q: Queue, q': Queue, j: Uuid)
    requires Lost(q, j) && q'.rows.Keys == q.rows.Keys && q'.rows[j] == q.rows[j]
    requires forall p :: p in q.rows && q.rows[p].state == Done ==> q'.rows[p].state == Done
    requires forall p :: p in q.rows[j].dependsOn && p in q'.owed ==> p in q.owed
    ensures Lost(q', j)
  {
  }

  lemma WakeKeepsLost(q: Queue, i: Uuid, j: Uuid)
    requires WellLinked(q.rows) && Enabled(q, Wake(i)) && Lost(q, j)
    ensures Lost(Next(q, Wake(i)), j)
  {
    QueryMeaning(q.rows, i, Done, Pending);
    SelectedMeaning(q.rows, i, Done, j);
    hide UpdateDependents, Selected, WellLinked;
    assert !Selected(q.rows, i, Done, j);
    StaysLost(q, Next(q, Wake(i)), j);
  }

  lemma StepKeepsLost(q: Queue, step: Step, j: Uuid)
    requires Synced(q) && WellLinked(q.rows) && Enabled(q, step) && Unattended(step) && Lost(q, j)
    ensures Lost(Next(q, step), j)
  {
    hide UpdateDependents, Selected, Perform, WellLinked, AllParentsDone;
    if step.Wake? {
      WakeKeepsLost(q, step.uuid, j);
    } else {
      if step.Finish? { FinishedWasNoParent(q, step.worker, j); }
      StaysLost(q, Next(q, step), j);
    }
  }

  lemma FinishedWasNoParent(q: Queue, w: nat, j: Uuid)
    requires Synced(q) && w in q.workers && Lost(q, j)
    ensures q.workers[w].uuid !in q.rows[j].dependsOn && q.workers[w].uuid != j
  {
  }

  // Nothing but a manual step ever brings a lost job back.
  lemma {:induction false} LostForEver(q: Queue, steps: seq<Step>, j: Uuid)
    requires Synced(q) && WellLinked(q.rows) && Runnable(q, steps) && AllUnattended(steps) && Lost(q, j)
    ensures Lost(Run(q, steps), j)
    decreases |steps|
  {
    if steps != [] {
      assert Unattended(steps[0]);
      hide Next, Enabled, Synced, Lost, WellLinked, SameStructure;
      StepKeepsLost(q, steps[0], j);
      StaysSynced(q, steps[0]);
      StepsKeepStructure(q, steps[0]);
      SameStructureWellLinked(q.rows, Next(q, steps[0]).rows);
      LostForEver(Next(q, steps[0]), steps[1..], j);
    }
  }
}
