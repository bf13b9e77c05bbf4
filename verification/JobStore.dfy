// The methods of queue_job/job.py, the controller that performs jobs, the runner's
// queries and the buttons of the queue.job view, as updates of one table.
module JobStore {
  import opened Jobs
  import opened JobSafety

  function DependingRow(rows: Rows, child: Uuid, parents: set<Uuid>, j: Uuid): Job
    requires child in rows && parents <= rows.Keys && j in rows
  {
    if j == child then
      rows[j].(dependsOn := rows[j].dependsOn + parents,
               state := if exists p :: p in parents && rows[p].state != Done then WaitDependencies else rows[j].state)
    else if j in parents then
      rows[j].(reverseDependsOn := rows[j].reverseDependsOn + {child})
    else
      rows[j]
  }

  // rows after child received the given parents.
  function WithDepends(rows: Rows, child: Uuid, parents: set<Uuid>): Rows
    requires child in rows && parents <= rows.Keys
  {
    map j | j in rows :: DependingRow(rows, child, parents, j)
  }

  function WithReverse(rows: Rows, child: Uuid, parents: set<Uuid>): Rows {
    map j | j in rows ::
      if j in parents then rows[j].(reverseDependsOn := rows[j].reverseDependsOn + {child}) else rows[j]
  }

  lemma DependsAdded(rows: Rows, child: Uuid, parents: set<Uuid>, rows': Rows)
    requires child in rows && parents <= rows.Keys && child !in parents
    requires var linked := WithReverse(rows[child := rows[child].(dependsOn := rows[child].dependsOn + parents)], child, parents);
      rows' == if exists p :: p in parents && rows[p].state != Done then WithState(linked, child, WaitDependencies) else linked
    ensures rows' == WithDepends(rows, child, parents)
  {
    forall j | j in rows ensures rows'[j] == DependingRow(rows, child, parents, j) {
    }
  }

  // What an attempt that nothing interferes with makes of a job.
  predicate Attempted(rows: Rows, j: Uuid, outcome: Outcome, job': Job)
    requires j in rows
  {
    Stored(rows[j].(state := Started), Worker(j, rows[j].retry, AllParentsDone(rows, j)), outcome, job')
  }

  class Store {
    var rows: Rows
    var workers: map<nat, Worker>
    var owed: set<Uuid>
    ghost var everDone: set<Uuid>

    ghost function View(): Queue
      reads this
    {
      Queue(rows, workers, owed, everDone)
    }

    constructor (jobs: Rows)
      ensures View() == Queue(jobs, map[], {}, {})
    {
      rows, workers, owed, everDone := jobs, map[], {}, {};
    }

    // add_depends(): the ValueError leaves everything as it was.
    method AddDepends(child: Uuid, parents: set<Uuid>) returns (ok: bool)
      requires child in rows && parents <= rows.Keys
      modifies this`rows
      ensures ok <==> child !in parents
      ensures rows == if ok then WithDepends(old(rows), child, parents) else old(rows)
    {
      if child in parents { return false; }
      ok := true;
      ghost var before := rows;
      rows := rows[child := rows[child].(dependsOn := rows[child].dependsOn + parents)];
      AddReverse(child, parents);
      if exists p :: p in parents && rows[p].state != Done {
        rows := WithState(rows, child, WaitDependencies);
      }
      DependsAdded(before, child, parents, rows);
    }

    // Every parent learns of its child.
    method AddReverse(child: Uuid, parents: set<Uuid>)
      requires child in rows && child !in parents && parents <= rows.Keys
      modifies this`rows
      ensures rows == WithReverse(old(rows), child, parents)
    {
      var rest := parents;
      while rest != {}
        invariant rest <= parents && rows == WithReverse(old(rows), child, parents - rest)
        decreases rest
      {
        var parent :| parent in rest;
        rest := rest - {parent};
        rows := rows[parent := rows[parent].(reverseDependsOn := rows[parent].reverseDependsOn + {child})];
      }
      assert parents - rest == parents;
    }

    // The common dependent-jobs query: the selection is made on the table as it was
    // before the update.
    method RunDependentsQuery(j: Uuid, need: State, to: State)
      requires j in rows
      modifies this`rows
      ensures rows == UpdateDependents(old(rows), j, need, to) && rows.Keys == old(rows).Keys
    {
      hide Selected;
      var before := rows;
      var rest := rows.Keys;
      while rest != {}
        invariant rest <= before.Keys && rows.Keys == before.Keys
        invariant forall c :: c in before ==>
            rows[c] == if c !in rest && Selected(before, j, need, c) then before[c].(state := to) else before[c]
        decreases rest
      {
        var c :| c in rest;
        rest := rest - {c};
        if Selected(before, j, need, c) {
          rows := rows[c := rows[c].(state := to)];
        }
      }
    }

    // Released jobs have only parents that were done at some time; see JobSafety.
    ghost predicate Valid()
      reads this
    {
      ReleaseSafe(View())
    }

    // Every child whose parents are all done has been released.
    ghost predicate ChildrenReleased(j: Uuid)
      reads this
    {
      forall c :: c in rows && j in rows[c].dependsOn && rows[c].state == WaitDependencies ==> !AllParentsDone(rows, c)
    }

    // set_job_enqueued() of the runner, which does not look at the state. The channel
    // manager offers pending jobs.
    method SetEnqueued(j: Uuid)
      requires Valid() && j in rows
      modifies this`rows
      ensures rows == old(rows)[j := old(rows)[j].(state := Enqueued)]
      ensures Valid() <==> rows[j].dependsOn <= everDone
      ensures old(rows)[j].state == Pending ==>
        && Valid() && View() == Next(old(View()), Enqueue(j))
        && (NoLostWakeUp(old(View())) ==> NoLostWakeUp(View()))
    {
      hide ReleaseSafe, NoLostWakeUp, Strands;
      ghost var q := View();
      rows := rows[j := rows[j].(state := Enqueued)];
      EnqueuedSafelyExactly(q, j);
      if q.rows[j].state == Pending { Keeps(q, Enqueue(j)); }
    }

    // The first transaction of _try_perform_job(): load, set_started(), store().
    method StartJob(j: Uuid, w: nat)
      requires Valid() && Enabled(View(), Start(j, w))
      modifies this
      ensures Valid() && View() == Next(old(View()), Start(j, w))
      ensures NoLostWakeUp(old(View())) ==> NoLostWakeUp(View())
      ensures j in rows && rows == old(rows)[j := rows[j]] && rows[j].dependsOn <= everDone
      ensures rows[j] == old(rows)[j].(state := Started) && owed == old(owed)
      ensures workers == old(workers)[w := Worker(j, old(rows)[j].retry, AllParentsDone(old(rows), j))]
      ensures everDone == old(everDone)
    {
      hide ReleaseSafe, NoLostWakeUp, Strands, UpdateDependents, AllParentsDone;
      ghost var q := View();
      workers := workers[w := Worker(j, rows[j].retry, AllParentsDone(rows, j))];
      rows := rows[j := rows[j].(state := Started)];
      Keeps(q, Start(j, w));
      ParentsWereDone(View(), j);
    }

    // perform() and the transaction the controller stores its result in.
    method FinishJob(w: nat, outcome: Outcome)
      requires Valid() && Enabled(View(), Finish(w, outcome))
      modifies this
      ensures Valid() && View() == Next(old(View()), Finish(w, outcome))
      ensures NoLostWakeUp(old(View())) ==>
                (NoLostWakeUp(View()) <==> !StaleRetry(old(View()), Finish(w, outcome)))
      ensures var j := old(workers)[w].uuid;
        && j in rows && rows == old(rows)[j := rows[j]] && rows[j].dependsOn <= everDone
        && Stored(old(rows)[j], old(workers)[w], outcome, rows[j])
        && owed == (if IsSuccess(outcome) then old(owed) + {j} else old(owed))
        && everDone == (if IsSuccess(outcome) then old(everDone) + {j} else old(everDone))
      ensures workers == old(workers) - {w}
    {
      hide ReleaseSafe, NoLostWakeUp, Strands, UpdateDependents, AllParentsDone;
      ghost var q := View();
      var worker := workers[w];
      var j := worker.uuid;
      var (retry, verdict) := Perform(worker.retry, rows[j].maxRetries, outcome);
      match verdict {
        case ToDone =>
          rows := rows[j := rows[j].(state := Done, retry := retry)];
          owed := owed + {j};
          everDone := everDone + {j};
        case ToPostponed =>
          var state := if worker.parentsDone then Pending else WaitDependencies;
          rows := rows[j := rows[j].(state := state, retry := retry)];
        case ToFailed =>
          rows := rows[j := rows[j].(state := Failed, retry := retry)];
      }
      workers := workers - {w};
      Keeps(q, Finish(w, outcome));
      HeldParentsWereDone(q, w);
      FinishMeaning(q, w, outcome);
    }

    method CrashWorker(w: nat)
      requires Valid() && Enabled(View(), Crash(w))
      modifies this
      ensures Valid() && View() == Next(old(View()), Crash(w))
      ensures NoLostWakeUp(old(View())) ==> NoLostWakeUp(View())
      ensures rows == old(rows) && workers == old(workers) - {w} && owed == old(owed) && everDone == old(everDone)
    {
      hide ReleaseSafe, NoLostWakeUp, Strands, UpdateDependents, AllParentsDone;
      ghost var q := View();
      workers := workers - {w};
      Keeps(q, Crash(w));
    }

    method EnqueueWaiting(j: Uuid)
      requires Valid() && Enabled(View(), Wake(j))
      modifies this
      ensures Valid() && View() == Next(old(View()), Wake(j))
      ensures NoLostWakeUp(old(View())) ==> NoLostWakeUp(View())
      ensures rows.Keys == old(rows).Keys && ChildrenReleased(j)
      ensures forall c :: c in rows && rows[c] != old(rows)[c] ==>
                && j in old(rows)[c].dependsOn && old(rows)[c].state == WaitDependencies && AllParentsDone(old(rows), c)
                && rows[c] == old(rows)[c].(state := Pending)
      ensures workers == old(workers) && owed == old(owed) - {j}
      ensures everDone == old(everDone)
    {
      hide ReleaseSafe, NoLostWakeUp, Strands, UpdateDependents, AllParentsDone;
      ghost var q := View();
      RunDependentsQuery(j, Done, Pending);
      owed := owed - {j};
      Keeps(q, Wake(j));
      LinkedWhenSafe(q);
      QueryReleases(q.rows, j);
    }

    // The controller gives up on enqueue_waiting(), or its process is killed before.
    method AbandonWaiting(j: Uuid)
      requires Valid() && Enabled(View(), Abandon(j))
      modifies this`owed
      ensures Valid() && View() == Next(old(View()), Abandon(j))
      ensures NoLostWakeUp(old(View())) ==> (NoLostWakeUp(View()) <==> !AbandonsLast(old(View()), Abandon(j)))
      ensures owed == old(owed) - {j}
    {
      hide ReleaseSafe, NoLostWakeUp, Strands, UpdateDependents, AllParentsDone;
      ghost var q := View();
      owed := owed - {j};
      Keeps(q, Abandon(j));
    }

    // The query that requeues dead jobs, for one job.
    method RequeueDeadJob(j: Uuid)
      requires Valid() && Enabled(View(), Revive(j))
      modifies this
      ensures Valid() && View() == Next(old(View()), Revive(j))
      ensures NoLostWakeUp(old(View())) ==> NoLostWakeUp(View())
      ensures rows == old(rows)[j := rows[j]] && rows[j].dependsOn <= everDone
      ensures var job := old(rows)[j];
        && (rows[j].state == Failed <==> 0 < job.maxRetries < job.retry)
        && (rows[j].state == Pending <==> !(0 < job.maxRetries < job.retry))
        && rows[j].retry == job.retry + (if job.state == Started then 1 else 0)
      ensures workers == old(workers) && owed == old(owed) && everDone == old(everDone)
    {
      hide ReleaseSafe, NoLostWakeUp, Strands, UpdateDependents, AllParentsDone;
      ghost var q := View();
      var job := rows[j];
      var dead := job.maxRetries != 0 && job.retry > job.maxRetries;
      var retry := if job.state == Started then job.retry + 1 else job.retry;
      rows := rows[j := job.(state := if dead then Failed else Pending, retry := retry)];
      Keeps(q, Revive(j));
      ParentsWereDone(View(), j);
    }

    // _change_job_state(DONE), which wakes the children in the same transaction.
    method MarkJobDone(j: Uuid)
      requires Valid() && Enabled(View(), MarkDone(j))
      modifies this
      ensures Valid() && View() == Next(old(View()), MarkDone(j))
      ensures NoLostWakeUp(old(View())) ==> NoLostWakeUp(View())
      ensures j in rows && rows[j] == old(rows)[j].(state := Done) && ChildrenReleased(j)
      ensures everDone == old(everDone) + {j} && owed == old(owed) && workers == old(workers)
    {
      hide ReleaseSafe, NoLostWakeUp, Strands, UpdateDependents, AllParentsDone;
      ghost var q := View();
      rows := rows[j := rows[j].(state := Done)];
      MarkedIsLinked(q, rows, j);
      ghost var marked := rows;
      RunDependentsQuery(j, Done, Pending);
      everDone := everDone + {j};
      Keeps(q, MarkDone(j));
      QueryReleases(marked, j);
      QueryMeaning(marked, j, Done, Pending);
    }

    // requeue(): set_pending() on a freshly loaded job.
    method RequeueJob(j: Uuid)
      requires Valid() && Enabled(View(), Requeue(j))
      modifies this
      ensures Valid() && View() == Next(old(View()), Requeue(j))
      ensures NoLostWakeUp(old(View())) ==> NoLostWakeUp(View())
      ensures rows == old(rows)[j := rows[j]] && rows[j].retry == 0
      ensures rows[j].state == if AllParentsDone(rows, j) then Pending else WaitDependencies
      ensures workers == old(workers) && owed == old(owed) && everDone == old(everDone)
    {
      hide ReleaseSafe, NoLostWakeUp, Strands, UpdateDependents;
      ghost var q := View();
      var waits := exists p :: p in rows[j].dependsOn && p in rows && rows[p].state != Done;
      rows := rows[j := rows[j].(state := if waits then WaitDependencies else Pending, retry := 0)];
      Keeps(q, Requeue(j));
      OwnStateIsNoParent(q, View(), j);
    }

    // _change_job_state(CANCELLED) with cancel_dependent_jobs().
    method CancelJob(j: Uuid)
      requires Valid() && Enabled(View(), Cancel(j))
      modifies this
      ensures Valid() && View() == Next(old(View()), Cancel(j))
      ensures NoLostWakeUp(old(View())) ==> NoLostWakeUp(View())
      ensures rows.Keys == old(rows).Keys && rows[j] == old(rows)[j].(state := Cancelled)
      ensures forall c :: c in rows ==> rows[c].state == old(rows)[c].state || rows[c].state == Cancelled
      ensures forall c :: c in rows && c != j ==>
        (rows[c].state != old(rows)[c].state <==>
          && old(rows)[c].state == WaitDependencies && j in old(rows)[c].dependsOn
          && forall p :: p in old(rows)[c].dependsOn && p != j ==> old(rows)[p].state == Cancelled)
      ensures workers == old(workers) && owed == old(owed) && everDone == old(everDone)
    {
      hide ReleaseSafe, NoLostWakeUp, Strands, UpdateDependents, AllParentsDone;
      ghost var q := View();
      rows := rows[j := rows[j].(state := Cancelled)];
      QueryMeaning(rows, j, Cancelled, Cancelled);
      RunDependentsQuery(j, Cancelled, Cancelled);
      Keeps(q, Cancel(j));
      CancelledChildren(q, j);
    }

    // action_run_now(), with enqueue_waiting() before the final store() as written there.
    method RunJobNow(j: Uuid, outcome: Outcome)
      requires Valid() && Enabled(View(), RunNow(j, outcome))
      modifies this
      ensures Valid() && View() == Next(old(View()), RunNow(j, outcome))
      ensures NoLostWakeUp(old(View())) ==> (NoLostWakeUp(View()) <==> !RunNowLast(old(View()), RunNow(j, outcome)))
      ensures j in rows && rows == old(rows)[j := rows[j]]
      ensures if outcome == Succeeds then rows[j] == old(rows)[j].(state := Done, retry := old(rows)[j].retry + 1)
              else View() == old(View())
      ensures workers == old(workers) && owed == old(owed)
      ensures everDone == if outcome == Succeeds then old(everDone) + {j} else old(everDone)
    {
      hide ReleaseSafe, NoLostWakeUp, RunNowLast, Strands, UpdateDependents, AllParentsDone, WellLinked;
      ghost var q := View();
      Keeps(q, RunNow(j, outcome));
      if outcome == Succeeds {
        LinkedWhenSafe(q);
        RunNowMeaning(q, j);
        RunAndStore(j);
      }
    }

    method RunAndStore(j: Uuid)
      requires j in rows
      modifies this
      ensures View() == Jobs.RunJobNow(old(View()), j, Succeeds)
    {
      hide UpdateDependents;
      var retry := rows[j].retry + 1;
      rows := rows[j := rows[j].(state := Started)];
      RunDependentsQuery(j, Done, Pending);
      rows := rows[j := rows[j].(state := Done, retry := retry)];
      everDone := everDone + {j};
    }

    // _try_perform_job() and the handlers around it, when nothing interferes.
    method PerformJob(j: Uuid, w: nat, outcome: Outcome)
      requires Valid() && Enabled(View(), Start(j, w))
      modifies this
      ensures Valid() && workers == old(workers)
      ensures j in rows && rows == old(rows)[j := rows[j]]
      ensures Attempted(old(rows), j, outcome, rows[j])
      ensures owed == if IsSuccess(outcome) then old(owed) + {j} else old(owed)
      ensures NoLostWakeUp(old(View())) ==> NoLostWakeUp(View())
    {
      hide ReleaseSafe, NoLostWakeUp, StaleRetry, AllParentsDone, Next;
      ghost var q := View();
      NotStale(q, j, w, outcome);
      StartJob(j, w);
      FinishJob(w, outcome);
    }

    // runjob() of the controller, when nothing interferes: only an enqueued job is run, and
    // a job that is done has released its children.
    method RunJob(j: Uuid, w: nat, outcome: Outcome) returns (ran: bool)
      requires Valid() && j in rows && w !in workers
      modifies this
      ensures Valid() && workers == old(workers) && rows.Keys == old(rows).Keys
      ensures ran <==> old(rows)[j].state == Enqueued
      ensures !ran ==> View() == old(View())
      ensures ran ==> Attempted(old(rows), j, outcome, rows[j])
      ensures ran && IsSuccess(outcome) ==> ChildrenReleased(j) && owed == old(owed) - {j}
      ensures ran && !IsSuccess(outcome) ==> rows == old(rows)[j := rows[j]] && owed == old(owed)
      ensures NoLostWakeUp(old(View())) ==> NoLostWakeUp(View())
    {
      hide ReleaseSafe, NoLostWakeUp, AllParentsDone, Next;
      if rows[j].state != Enqueued { return false; }
      PerformJob(j, w, outcome);
      if rows[j].state == Done {
        ghost var done := rows;
        EnqueueWaiting(j);
        assert rows[j] == done[j];
      }
      return true;
    }

    // One step of the table.
    method Take(step: Step)
      requires Valid() && Enabled(View(), step)
      modifies this
      ensures Valid() && View() == Next(old(View()), step)
    {
      match step
      case Enqueue(j) => SetEnqueued(j);
      case Start(j, w) => StartJob(j, w);
      case Finish(w, outcome) => FinishJob(w, outcome);
      case Crash(w) => CrashWorker(w);
      case Wake(j) => EnqueueWaiting(j);
      case Abandon(j) => AbandonWaiting(j);
      case Revive(j) => RequeueDeadJob(j);
      case MarkDone(j) => MarkJobDone(j);
      case Requeue(j) => RequeueJob(j);
      case Cancel(j) => CancelJob(j);
      case RunNow(j, outcome) => RunJobNow(j, outcome);
    }

    // Any run of steps, in any interleaving.
    method TakeAll(steps: seq<Step>)
      requires Valid() && Runnable(View(), steps)
      modifies this
      ensures Valid() && View() == Run(old(View()), steps)
      ensures NoLostWakeUp(old(View())) && NeverStrands(old(View()), steps) ==> NoLostWakeUp(View())
    {
      hide NoLostWakeUp, NeverStrands, Enabled, Next;
      ghost var q := View();
      var i := 0;
      while i < |steps|
        invariant 0 <= i <= |steps| && Valid() && Runnable(View(), steps[i..])
        invariant Run(View(), steps[i..]) == Run(q, steps)
      {
        assert steps[i..][0] == steps[i] && steps[i..][1..] == steps[i + 1..];
        Take(steps[i]);
        i := i + 1;
      }
      if NoLostWakeUp(q) && NeverStrands(q, steps) { RunsLoseNoWakeUp(q, steps); }
    }
  }

  // ------------------------------------------------------------------ what the methods keep

  lemma Keeps(q: Queue, step: Step)
    requires ReleaseSafe(q) && Enabled(q, step)
    ensures ReleaseSafe(Next(q, step))
    ensures NoLostWakeUp(q) ==> (NoLostWakeUp(Next(q, step)) <==> !Strands(q, step))
    ensures !step.Finish? && !step.RunNow? && !step.Abandon? ==> !Strands(q, step)
    ensures step.Finish? ==> (Strands(q, step) <==> StaleRetry(q, step))
    ensures step.RunNow? ==> (Strands(q, step) <==> RunNowLast(q, step))
    ensures step.Abandon? ==> (Strands(q, step) <==> AbandonsLast(q, step))
  {
    hide NoLostWakeUp, Next;
    StepIsSafe(q, step);
    LinkedWhenSafe(q);
    hide ReleaseSafe;
    if NoLostWakeUp(q) { StepStrandsExactly(q, step); }
  }

  // Enqueueing any job keeps the table safe if and only if its parents were all done.
  lemma EnqueuedSafelyExactly(q: Queue, j: Uuid)
    requires ReleaseSafe(q) && j in q.rows
    ensures ReleaseSafe(q.(rows := WithState(q.rows, j, Enqueued))) <==> q.rows[j].dependsOn <= q.everDone
  {
    var q' := q.(rows := WithState(q.rows, j, Enqueued));
    if q.rows[j].dependsOn <= q.everDone { OneRowChanges(q, q', j); }
    if ReleaseSafe(q') { ParentsWereDone(q', j); }
  }

  lemma ParentsWereDone(q: Queue, j: Uuid)
    requires ReleaseSafe(q) && j in q.rows && IsReleased(q.rows[j].state)
    ensures q.rows[j].dependsOn <= q.everDone
  {
  }

  lemma HeldParentsWereDone(q: Queue, w: nat)
    requires ReleaseSafe(q) && w in q.workers
    ensures q.workers[w].uuid in q.rows && q.rows[q.workers[w].uuid].dependsOn <= q.everDone
  {
  }

  lemma OwnStateIsNoParent(q: Queue, q': Queue, j: Uuid)
    requires ReleaseSafe(q) && j in q.rows && SameStructure(q.rows, q'.rows) && q'.rows == q.rows[j := q'.rows[j]]
    ensures AllParentsDone(q'.rows, j) <==> AllParentsDone(q.rows, j)
  {
    SameParents(q, q', j);
  }

  lemma QueryReleases(rows: Rows, j: Uuid)
    requires WellLinked(rows) && j in rows
    ensures var rows' := UpdateDependents(rows, j, Done, Pending);
      && (forall c :: c in rows' && j in rows'[c].dependsOn && rows'[c].state == WaitDependencies ==> !AllParentsDone(rows', c))
      && (forall c :: c in rows' && rows'[c] != rows[c] ==>
            && j in rows[c].dependsOn && rows[c].state == WaitDependencies && AllParentsDone(rows, c)
            && rows'[c] == rows[c].(state := Pending))
  {
  }

  lemma MarkedIsLinked(q: Queue, rows: Rows, j: Uuid)
    requires ReleaseSafe(q) && j in q.rows && rows == WithState(q.rows, j, Done)
    ensures WellLinked(rows)
  {
    assert SameStructure(q.rows, rows);
    SameStructureWellLinked(q.rows, rows);
  }

  lemma CancelledChildren(q: Queue, j: Uuid)
    requires ReleaseSafe(q) && Enabled(q, Cancel(j))
    ensures var rows := Next(q, Cancel(j)).rows;
      forall c :: c in q.rows && c != j ==>
        (rows[c].state != q.rows[c].state <==>
          && q.rows[c].state == WaitDependencies && j in q.rows[c].dependsOn
          && forall p :: p in q.rows[c].dependsOn && p != j ==> q.rows[p].state == Cancelled)
  {
    assert WellLinked(q.rows);
    hide ReleaseSafe, Next, WellLinked;
    forall c | c in q.rows && c != j
      ensures Next(q, Cancel(j)).rows[c].state != q.rows[c].state <==>
        && q.rows[c].state == WaitDependencies && j in q.rows[c].dependsOn
        && forall p :: p in q.rows[c].dependsOn && p != j ==> q.rows[p].state == Cancelled
    {
      CancelReachesChildrenOnly(q, j, c);
    }
  }

  // A worker that is not interrupted decides with parents that are up to date.
  lemma NotStale(q: Queue, j: Uuid, w: nat, outcome: Outcome)
    requires ReleaseSafe(q) && Enabled(q, Start(j, w))
    ensures var started := Next(q, Start(j, w));
      Enabled(started, Finish(w, outcome)) && !StaleRetry(started, Finish(w, outcome))
  {
    var started := Next(q, Start(j, w));
    StepsKeepStructure(q, Start(j, w));
    SameParents(q, started, j);
  }

  // ------------------------------------------------------------------ retry delay

  const RETRY_INTERVAL := 600

  // A postpone time of the pattern is a number of seconds or a range to draw from.
  datatype Postpone = Seconds(n: nat) | Between(low: nat, high: nat)

  ghost predicate Matches(pattern: map<nat, Postpone>, retry: nat, key: nat) {
    key in pattern && key <= retry && forall k :: k in pattern && k <= retry ==> k <= key
  }

  predicate Sorted(keys: seq<nat>) {
    forall i, j :: 0 <= i < j < |keys| ==> keys[i] < keys[j]
  }

  method SmallestKey(keys: set<nat>) returns (k: nat)
    requires keys != {}
    ensures k in keys && forall x :: x in keys ==> k <= x
  {
    k :| k in keys;
    var rest := keys - {k};
    while rest != {}
      invariant rest <= keys && k in keys
      invariant forall x :: x in keys && x !in rest ==> k <= x
      decreases rest
    {
      var x :| x in rest;
      rest := rest - {x};
      if x < k { k := x; }
    }
  }

  method SortedKeys(pattern: map<nat, Postpone>) returns (keys: seq<nat>)
    ensures Sorted(keys) && forall k :: k in keys <==> k in pattern
  {
    keys := [];
    var rest := pattern.Keys;
    while rest != {}
      invariant rest <= pattern.Keys && Sorted(keys)
      invariant forall k :: k in keys <==> k in pattern && k !in rest
      invariant forall k, x :: k in keys && x in rest ==> k < x
      decreases rest
    {
      var k := SmallestKey(rest);
      rest := rest - {k};
      forall i | 0 <= i < |keys| ensures keys[i] < k {
        assert keys[i] in keys;
      }
      keys := keys + [k];
    }
  }

  lemma BelowStop(keys: seq<nat>, retry: nat, i: nat, j: nat)
    requires Sorted(keys) && i <= |keys| && (i < |keys| ==> retry < keys[i])
    requires j < |keys| && keys[j] <= retry
    ensures j < i
  {
  }

  // What may come of a postpone time: randint() of an empty range raises.
  predicate Drawn(postpone: Postpone, seconds: Option<nat>) {
    match postpone
    case Seconds(n) => seconds == Some(n)
    case Between(low, high) => if low <= high then seconds.Some? && low <= seconds.value <= high else seconds.None?
  }

  method Draw(postpone: Postpone) returns (seconds: Option<nat>)
    ensures Drawn(postpone, seconds)
  {
    match postpone
    case Seconds(n) => return Some(n);
    case Between(low, high) =>
      if low > high { return None; }
      var n: nat :| low <= n <= high;
      return Some(n);
  }

  // _get_retry_seconds(): drawn from the entry with the greatest retry count reached so far,
  // or the default interval when there is none; an explicit number of seconds wins over both.
  method GetRetrySeconds(pattern: map<nat, Postpone>, retry: nat, seconds: nat) returns (chosen: Option<nat>)
    ensures seconds != 0 ==> chosen == Some(seconds)
    ensures seconds == 0 && (forall k :: k in pattern ==> retry < k) ==> chosen == Some(600)
    ensures seconds == 0 ==> forall key :: Matches(pattern, retry, key) ==> Drawn(pattern[key], chosen)
  {
    if seconds != 0 { return Some(seconds); }
    var postpone := Seconds(RETRY_INTERVAL);
    var keys := SortedKeys(pattern);
    var i := 0;
    while i < |keys| && retry >= keys[i]
      invariant 0 <= i <= |keys|
      invariant forall j :: 0 <= j < i ==> keys[j] <= retry
      invariant postpone == if i == 0 then Seconds(RETRY_INTERVAL) else pattern[keys[i - 1]]
    {
      postpone := pattern[keys[i]];
      i := i + 1;
    }
    forall k | k in pattern && k <= retry ensures i > 0 && k <= keys[i - 1] {
      var j :| 0 <= j < |keys| && keys[j] == k;
      BelowStop(keys, retry, i, j);
    }
    if i > 0 { assert Matches(pattern, retry, keys[i - 1]); }
    chosen := Draw(postpone);
  }
}
