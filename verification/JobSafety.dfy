// What every step of the job table keeps: no job is released before its parents have
// been done, and no waiting job is forgotten except in three situations named exactly.
module JobSafety {
  import opened Graphs
  import opened Jobs

  // ------------------------------------------------------------------ release safety

  predicate IsReleased(s: State) {
    s in {Pending, Enqueued, Started, Failed}
  }

  // Every released job, and every job a worker holds, has only parents that have been
  // done at some time.
  ghost predicate ReleaseSafe(q: Queue) {
    && WellLinked(q.rows)
    && (forall j :: j in q.rows && q.rows[j].state == Done ==> j in q.everDone)
    && (forall j :: j in q.rows && IsReleased(q.rows[j].state) ==> q.rows[j].dependsOn <= q.everDone)
    && (forall w :: w in q.workers ==>
          q.workers[w].uuid in q.rows && q.rows[q.workers[w].uuid].dependsOn <= q.everDone)
  }

  lemma ParentsDoneWereDone(q: Queue, j: Uuid)
    requires ReleaseSafe(q) && j in q.rows && AllParentsDone(q.rows, j)
    ensures q.rows[j].dependsOn <= q.everDone
  {
    forall p | p in q.rows[j].dependsOn ensures p in q.everDone {
      assert p in q.rows;
    }
  }

  // Changing the state of one job is safe if done jobs are recorded and released jobs
  // have had all their parents done.
  lemma OneRowChanges(q: Queue, q': Queue, j: Uuid)
    requires ReleaseSafe(q) && j in q.rows && SameStructure(q.rows, q'.rows)
    requires forall i :: i in q.rows && i != j ==> q'.rows[i] == q.rows[i]
    requires q.everDone <= q'.everDone && q'.workers.Keys <= q.workers.Keys
    requires forall w :: w in q'.workers ==> q'.workers[w] == q.workers[w]
    requires q'.rows[j].state == Done ==> j in q'.everDone
    requires IsReleased(q'.rows[j].state) ==> q.rows[j].dependsOn <= q.everDone
    ensures ReleaseSafe(q')
  {
    SameStructureWellLinked(q.rows, q'.rows);
    forall i | i in q'.rows ensures q'.rows[i].dependsOn == q.rows[i].dependsOn {
    }
  }

  lemma WakingIsSafe(q: Queue, q': Queue, rows: Rows, j: Uuid)
    requires ReleaseSafe(q.(rows := rows)) && j in rows
    requires q' == q.(rows := UpdateDependents(rows, j, Done, Pending), owed := q'.owed)
    ensures ReleaseSafe(q')
  {
    var middle := q.(rows := rows);
    assert SameStructure(rows, q'.rows);
    SameStructureWellLinked(rows, q'.rows);
    forall i | i in q'.rows && IsReleased(q'.rows[i].state) ensures q'.rows[i].dependsOn <= q'.everDone {
      if q'.rows[i] != rows[i] {
        SelectedMeaning(rows, j, Done, i);
        ParentsDoneWereDone(middle, i);
      }
    }
  }

  lemma MarkingIsSafe(q: Queue, j: Uuid)
    requires ReleaseSafe(q) && Enabled(q, MarkDone(j))
    ensures ReleaseSafe(Next(q, MarkDone(j)))
  {
    hide Selected, WellLinked;
    var middle := q.(rows := WithState(q.rows, j, Done), everDone := q.everDone + {j});
    OneRowChanges(q, middle, j);
    hide ReleaseSafe;
    WakingIsSafe(middle, Next(q, MarkDone(j)), middle.rows, j);
  }

  lemma CancellingIsSafe(q: Queue, j: Uuid)
    requires ReleaseSafe(q) && Enabled(q, Cancel(j))
    ensures ReleaseSafe(Next(q, Cancel(j)))
  {
    hide Selected, WellLinked;
    var middle := q.(rows := WithState(q.rows, j, Cancelled));
    OneRowChanges(q, middle, j);
    hide ReleaseSafe;
    var rows := UpdateDependents(middle.rows, j, Cancelled, Cancelled);
    FewerReleased(middle, rows);
  }

  // Dropping jobs out of the released and done states is safe.
  lemma FewerReleased(q: Queue, rows: Rows)
    requires ReleaseSafe(q) && SameStructure(q.rows, rows)
    requires forall j :: j in q.rows ==> rows[j].state == q.rows[j].state || rows[j].state == Cancelled
    ensures ReleaseSafe(q.(rows := rows))
  {
    SameStructureWellLinked(q.rows, rows);
    hide WellLinked;
    forall j | j in rows
      ensures rows[j].dependsOn == q.rows[j].dependsOn
      ensures IsReleased(rows[j].state) ==> IsReleased(q.rows[j].state)
    {
    }
  }

  lemma StartIsSafe(q: Queue, j: Uuid, w: nat)
    requires ReleaseSafe(q) && Enabled(q, Start(j, w))
    ensures ReleaseSafe(Next(q, Start(j, w)))
  {
    hide AllParentsDone, WellLinked;
    var q' := Next(q, Start(j, w));
    StepsKeepStructure(q, Start(j, w));
    OneRowChanges(q, q.(rows := q'.rows), j);
  }

  lemma FinishIsSafe(q: Queue, w: nat, outcome: Outcome)
    requires ReleaseSafe(q) && Enabled(q, Finish(w, outcome))
    ensures ReleaseSafe(Next(q, Finish(w, outcome)))
  {
    hide AllParentsDone, WellLinked, SameStructure, Perform;
    StepsKeepStructure(q, Finish(w, outcome));
    OneRowChanges(q, Next(q, Finish(w, outcome)), q.workers[w].uuid);
  }

  lemma RequeueIsSafe(q: Queue, j: Uuid)
    requires ReleaseSafe(q) && Enabled(q, Requeue(j))
    ensures ReleaseSafe(Next(q, Requeue(j)))
  {
    hide ReleaseSafe, WellLinked, SameStructure, AllParentsDone;
    if AllParentsDone(q.rows, j) { ParentsDoneWereDone(q, j); }
    StepsKeepStructure(q, Requeue(j));
    OneRowChanges(q, Next(q, Requeue(j)), j);
  }

  lemma RunNowIsSafe(q: Queue, j: Uuid)
    requires ReleaseSafe(q) && Enabled(q, RunNow(j, Succeeds))
    ensures ReleaseSafe(Next(q, RunNow(j, Succeeds)))
  {
    LinkedWhenSafe(q);
    hide ReleaseSafe, WellLinked, RunJobNow;
    RunNowMeaning(q, j);
    OneRowChanges(q, Next(q, RunNow(j, Succeeds)), j);
  }

  lemma LinkedWhenSafe(q: Queue)
    requires ReleaseSafe(q)
    ensures WellLinked(q.rows)
  {
  }

  lemma RowStepIsSafe(q: Queue, step: Step)
    requires ReleaseSafe(q) && Enabled(q, step) && (step.Enqueue? || step.Revive?)
    ensures ReleaseSafe(Next(q, step))
  {
    hide WellLinked, SameStructure;
    StepsKeepStructure(q, step);
    OneRowChanges(q, Next(q, step), step.uuid);
  }

  lemma NoRowStepIsSafe(q: Queue, step: Step)
    requires ReleaseSafe(q) && Enabled(q, step) && (step.Crash? || step.Abandon?)
    ensures ReleaseSafe(Next(q, step))
  {
    hide WellLinked;
  }

  lemma StepIsSafe(q: Queue, step: Step)
    requires ReleaseSafe(q) && Enabled(q, step)
    ensures ReleaseSafe(Next(q, step))
  {
    hide ReleaseSafe, UpdateDependents, AllParentsDone;
    match step
    case Enqueue(j) => RowStepIsSafe(q, step);
    case Start(j, w) => StartIsSafe(q, j, w);
    case Finish(w, outcome) => FinishIsSafe(q, w, outcome);
    case Crash(w) => NoRowStepIsSafe(q, step);
    case Wake(j) => WakingIsSafe(q, Next(q, step), q.rows, j);
    case Abandon(j) => NoRowStepIsSafe(q, step);
    case Revive(j) => RowStepIsSafe(q, step);
    case MarkDone(j) => MarkingIsSafe(q, j);
    case Requeue(j) => RequeueIsSafe(q, j);
    case Cancel(j) => CancellingIsSafe(q, j);
    case RunNow(j, outcome) => if outcome == Succeeds { RunNowIsSafe(q, j); }
  }

  // The job is still a started parent of all its children when it looks for children
  // whose parents are all done.
  lemma RunNowWakesNobody(q: Queue, j: Uuid)
    requires WellLinked(q.rows) && j in q.rows
    ensures forall i :: i in q.rows && i != j ==> RunJobNow(q, j, Succeeds).rows[i] == q.rows[i]
  {
    var started := WithState(q.rows, j, Started);
    assert SameStructure(q.rows, started);
    SameStructureWellLinked(q.rows, started);
    forall i | i in q.rows && i != j ensures !Selected(started, j, Done, i) {
      SelectedMeaning(started, j, Done, i);
    }
  }

  lemma RunNowMeaning(q: Queue, j: Uuid)
    requires WellLinked(q.rows) && j in q.rows
    ensures RunJobNow(q, j, Succeeds) ==
            q.(rows := WithOutcome(q.rows, j, Done, q.rows[j].retry + 1), everDone := q.everDone + {j})
  {
    hide WellLinked, Selected, UpdateDependents;
    RunNowWakesNobody(q, j);
    QueryMeaning(WithState(q.rows, j, Started), j, Done, Pending);
    assert RunJobNow(q, j, Succeeds).rows == WithOutcome(q.rows, j, Done, q.rows[j].retry + 1);
  }

  // Over all runs: whatever is requeued, marked done, cancelled, killed or revived.
  lemma {:induction false} RunsAreReleaseSafe(q: Queue, steps: seq<Step>)
    requires ReleaseSafe(q) && Runnable(q, steps)
    ensures ReleaseSafe(Run(q, steps))
    decreases |steps|
  {
    if steps != [] {
      StepIsSafe(q, steps[0]);
      RunsAreReleaseSafe(Next(q, steps[0]), steps[1..]);
    }
  }

  // ------------------------------------------------------------------ wake-ups

  ghost predicate OwedParent(q: Queue, j: Uuid)
    requires j in q.rows
  {
    exists p :: p in q.rows[j].dependsOn && p in q.owed
  }

  // A waiting job whose parents are all done has a parent that still owes the wake-up.
  ghost predicate NoLostWakeUp(q: Queue) {
    forall j :: j in q.rows && q.rows[j].state == WaitDependencies && AllParentsDone(q.rows, j) ==> OwedParent(q, j)
  }

  // A worker puts its job back to waiting because of what it had loaded at the start,
  // although by now all parents are done and have woken their children.
  ghost predicate StaleRetry(q: Queue, step: Step)
    requires Enabled(q, step)
  {
    && step.Finish?
    && var worker := q.workers[step.worker];
    && Perform(worker.retry, q.rows[worker.uuid].maxRetries, step.outcome).1 == ToPostponed
    && !worker.parentsDone
    && AllParentsDone(q.rows, worker.uuid) && !OwedParent(q, worker.uuid)
  }

  // The manual run finishes the last missing parent of a waiting job.
  ghost predicate RunNowLast(q: Queue, step: Step)
    requires Enabled(q, step)
  {
    && step.RunNow? && step.outcome == Succeeds
    && exists c :: c in q.rows && LastParentOf(q, step.uuid, c)
  }

  ghost predicate LastParentOf(q: Queue, j: Uuid, c: Uuid)
    requires c in q.rows
  {
    && c != j && j in q.rows[c].dependsOn && q.rows[c].state == WaitDependencies && !OwedParent(q, c)
    && forall p :: p in q.rows[c].dependsOn && p in q.rows && p != j ==> q.rows[p].state == Done
  }

  // The only wake-up that some waiting job can still hope for is given up.
  ghost predicate AbandonsLast(q: Queue, step: Step)
    requires Enabled(q, step)
  {
    step.Abandon? && exists c :: c in q.rows && OnlyOwedParent(q, step.uuid, c)
  }

  ghost predicate OnlyOwedParent(q: Queue, j: Uuid, c: Uuid)
    requires c in q.rows
  {
    && q.rows[c].state == WaitDependencies && AllParentsDone(q.rows, c) && j in q.rows[c].dependsOn
    && forall p :: p in q.rows[c].dependsOn && p in q.owed ==> p == j
  }

  ghost predicate Strands(q: Queue, step: Step)
    requires Enabled(q, step)
  {
    StaleRetry(q, step) || RunNowLast(q, step) || AbandonsLast(q, step)
  }

  // Only job j changes, and it does not become done unless it owes a wake-up: then only j
  // itself can be a new waiting job.
  lemma OneRowWakeUps(q: Queue, q': Queue, j: Uuid)
    requires WellLinked(q.rows) && j in q.rows && SameStructure(q.rows, q'.rows)
    requires forall i :: i in q.rows && i != j ==> q'.rows[i] == q.rows[i]
    requires q.owed <= q'.owed
    requires q'.rows[j].state == Done ==> j in q'.owed || q.rows[j].state == Done
    requires NoLostWakeUp(q)
    ensures NoLostWakeUp(q') <==>
      !(q'.rows[j].state == WaitDependencies && AllParentsDone(q'.rows, j) && !OwedParent(q', j))
  {
    forall i | i in q'.rows && i != j && q'.rows[i].state == WaitDependencies && AllParentsDone(q'.rows, i)
      ensures OwedParent(q', i)
    {
      assert q'.rows[i].dependsOn == q.rows[i].dependsOn;
      if j in q.rows[i].dependsOn && q.rows[j].state != Done {
        assert q'.rows[j].state == Done;
        assert j in q'.owed;
      } else {
        forall p | p in q.rows[i].dependsOn && p in q.rows ensures q.rows[p].state == Done {
          if p != j { assert q'.rows[p] == q.rows[p]; }
        }
        assert AllParentsDone(q.rows, i);
        assert OwedParent(q, i);
      }
    }
  }

  lemma SameParents(q: Queue, q': Queue, j: Uuid)
    requires WellLinked(q.rows) && j in q.rows && SameStructure(q.rows, q'.rows)
    requires forall i :: i in q.rows && i != j ==> q'.rows[i] == q.rows[i]
    ensures AllParentsDone(q'.rows, j) <==> AllParentsDone(q.rows, j)
    ensures q'.owed == q.owed ==> (OwedParent(q', j) <==> OwedParent(q, j))
  {
    assert q'.rows[j].dependsOn == q.rows[j].dependsOn;
    forall p | p in q.rows[j].dependsOn ensures q'.rows[p] == q.rows[p] {
    }
  }

  lemma WakeKeepsWakeUps(q: Queue, j: Uuid)
    requires WellLinked(q.rows) && NoLostWakeUp(q) && Enabled(q, Wake(j))
    ensures NoLostWakeUp(Next(q, Wake(j)))
  {
    var q' := Next(q, Wake(j));
    assert SameStructure(q.rows, q'.rows);
    forall i | i in q'.rows && q'.rows[i].state == WaitDependencies && AllParentsDone(q'.rows, i)
      ensures OwedParent(q', i)
    {
      forall p | p in q.rows[i].dependsOn && p in q.rows ensures q.rows[p].state == Done {
        assert q'.rows[p].state == Done;
      }
      assert AllParentsDone(q.rows, i);
      SelectedMeaning(q.rows, j, Done, i);
      var p :| p in q.rows[i].dependsOn && p in q.owed;
      assert p != j;
    }
  }

  // Waking the children after some rows were changed: a job that waits on was waiting, and
  // its parents that are done were done.
  lemma QueryLeavesWaiting(rows: Rows, j: Uuid, need: State, to: State, i: Uuid)
    requires j in rows && i in rows && to != Done && to != WaitDependencies
    ensures var rows' := UpdateDependents(rows, j, need, to);
      && i in rows'
      && (rows'[i].state == WaitDependencies && AllParentsDone(rows', i) ==>
            rows[i].state == WaitDependencies && AllParentsDone(rows, i) && !Selected(rows, j, need, i))
  {
    QueryMeaning(rows, j, need, to);
    var rows' := UpdateDependents(rows, j, need, to);
    if rows'[i].state == WaitDependencies && AllParentsDone(rows', i) {
      assert rows'[i] == rows[i] && !Selected(rows, j, need, i);
      hide UpdateDependents, Selected;
      forall p | p in rows[i].dependsOn && p in rows ensures rows[p].state == Done {
        assert rows'[p].state == Done;
      }
    }
  }

  lemma CancelKeepsWakeUps(q: Queue, j: Uuid)
    requires WellLinked(q.rows) && NoLostWakeUp(q) && Enabled(q, Cancel(j))
    ensures NoLostWakeUp(Next(q, Cancel(j)))
  {
    hide UpdateDependents, Selected, WellLinked;
    var q', rows := Next(q, Cancel(j)), WithState(q.rows, j, Cancelled);
    StepsKeepStructure(q, Cancel(j));
    forall i | i in q'.rows && q'.rows[i].state == WaitDependencies && AllParentsDone(q'.rows, i)
      ensures OwedParent(q', i)
    {
      QueryLeavesWaiting(rows, j, Cancelled, Cancelled, i);
      assert AllParentsDone(q.rows, i);
      assert OwedParent(q, i);
    }
  }

  lemma MarkDoneKeepsWakeUps(q: Queue, j: Uuid)
    requires WellLinked(q.rows) && NoLostWakeUp(q) && Enabled(q, MarkDone(j))
    ensures NoLostWakeUp(Next(q, MarkDone(j)))
  {
    hide UpdateDependents, Selected, WellLinked, AllParentsDone;
    var q', rows := Next(q, MarkDone(j)), WithState(q.rows, j, Done);
    StepsKeepStructure(q, MarkDone(j));
    forall i | i in q'.rows && q'.rows[i].state == WaitDependencies && AllParentsDone(q'.rows, i)
      ensures OwedParent(q', i)
    {
      QueryLeavesWaiting(rows, j, Done, Pending, i);
      NotMarkedForRelease(q, j, i);
      assert OwedParent(q, i);
    }
  }

  lemma NotMarkedForRelease(q: Queue, j: Uuid, i: Uuid)
    requires WellLinked(q.rows) && j in q.rows && i in q.rows
    requires var rows := WithState(q.rows, j, Done);
      rows[i].state == WaitDependencies && AllParentsDone(rows, i) && !Selected(rows, j, Done, i)
    ensures q.rows[i].state == WaitDependencies && AllParentsDone(q.rows, i)
  {
    var rows := WithState(q.rows, j, Done);
    assert SameStructure(q.rows, rows);
    SameStructureWellLinked(q.rows, rows);
    SelectedMeaning(rows, j, Done, i);
    hide Selected;
  }

  lemma AbandonWakeUps(q: Queue, j: Uuid)
    requires NoLostWakeUp(q) && Enabled(q, Abandon(j))
    ensures NoLostWakeUp(Next(q, Abandon(j))) <==> !AbandonsLast(q, Abandon(j))
  {
    var q' := Next(q, Abandon(j));
    forall c | c in q.rows && q.rows[c].state == WaitDependencies && AllParentsDone(q.rows, c)
      ensures OwedParent(q', c) <==> !OnlyOwedParent(q, j, c)
    {
      var p :| p in q.rows[c].dependsOn && p in q.owed;
      if !OnlyOwedParent(q, j, c) && p == j {
        var p' :| p' in q.rows[c].dependsOn && p' in q.owed && p' != j;
        assert p' in q'.owed;
      }
    }
  }

  lemma RunNowWakeUps(q: Queue, j: Uuid)
    requires WellLinked(q.rows) && NoLostWakeUp(q) && Enabled(q, RunNow(j, Succeeds))
    ensures NoLostWakeUp(Next(q, RunNow(j, Succeeds))) <==> !RunNowLast(q, RunNow(j, Succeeds))
  {
    var q' := Next(q, RunNow(j, Succeeds));
    RunNowMeaning(q, j);
    hide RunJobNow, WellLinked, AllParentsDone, OwedParent, LastParentOf;
    forall c | c in q.rows && c != j && q.rows[c].state == WaitDependencies
      ensures AllParentsDone(q'.rows, c) && !OwedParent(q', c) <==> LastParentOf(q, j, c)
    {
      RunNowParents(q, q', j, c);
    }
    forall c | c in q.rows && LastParentOf(q, j, c) ensures c != j && q.rows[c].state == WaitDependencies {
      LastParentMeaning(q, j, c);
    }
  }

  lemma LastParentMeaning(q: Queue, j: Uuid, c: Uuid)
    requires c in q.rows && LastParentOf(q, j, c)
    ensures c != j && q.rows[c].state == WaitDependencies
  {
  }

  lemma RunNowParents(q: Queue, q': Queue, j: Uuid, c: Uuid)
    requires j in q.rows && c in q.rows && c != j && q.rows[c].state == WaitDependencies && NoLostWakeUp(q)
    requires q'.rows.Keys == q.rows.Keys && q'.rows[j].state == Done && q'.owed == q.owed
    requires forall i :: i in q.rows && i != j ==> q'.rows[i] == q.rows[i]
    ensures AllParentsDone(q'.rows, c) && !OwedParent(q', c) <==> LastParentOf(q, j, c)
  {
    assert q'.rows[c] == q.rows[c];
    if AllParentsDone(q'.rows, c) && !OwedParent(q', c) {
      forall p | p in q.rows[c].dependsOn && p in q.rows && p != j ensures q.rows[p].state == Done {
        assert q'.rows[p] == q.rows[p];
      }
      if j !in q.rows[c].dependsOn { assert AllParentsDone(q.rows, c); }
    }
  }

  lemma StartWakeUps(q: Queue, j: Uuid, w: nat)
    requires WellLinked(q.rows) && NoLostWakeUp(q) && Enabled(q, Start(j, w))
    ensures NoLostWakeUp(Next(q, Start(j, w)))
  {
    hide WellLinked, NoLostWakeUp, AllParentsDone, SameStructure;
    StepsKeepStructure(q, Start(j, w));
    OneRowWakeUps(q, Next(q, Start(j, w)), j);
  }

  lemma FinishWakeUps(q: Queue, w: nat, outcome: Outcome)
    requires WellLinked(q.rows) && NoLostWakeUp(q) && Enabled(q, Finish(w, outcome))
    ensures NoLostWakeUp(Next(q, Finish(w, outcome))) <==> !StaleRetry(q, Finish(w, outcome))
  {
    hide WellLinked, NoLostWakeUp, AllParentsDone, OwedParent, SameStructure, Perform;
    var q', j := Next(q, Finish(w, outcome)), q.workers[w].uuid;
    StepsKeepStructure(q, Finish(w, outcome));
    OneRowWakeUps(q, q', j);
    SameParents(q, q', j);
  }

  lemma CrashWakeUps(q: Queue, w: nat)
    requires NoLostWakeUp(q) && Enabled(q, Crash(w))
    ensures NoLostWakeUp(Next(q, Crash(w)))
  {
    hide AllParentsDone;
    forall i | i in q.rows ensures OwedParent(Next(q, Crash(w)), i) == OwedParent(q, i) {
    }
  }

  lemma RowStepWakeUps(q: Queue, step: Step)
    requires WellLinked(q.rows) && NoLostWakeUp(q) && Enabled(q, step)
    requires step.Enqueue? || step.Revive? || step.Requeue?
    ensures NoLostWakeUp(Next(q, step))
  {
    var q' := Next(q, step);
    StepsKeepStructure(q, step);
    OneRowWakeUps(q, q', step.uuid);
    if step.Requeue? { SameParents(q, q', step.uuid); }
  }

  // One step from a table without lost wake-ups loses one exactly if it strands a job.
  lemma StepStrandsExactly(q: Queue, step: Step)
    requires WellLinked(q.rows) && NoLostWakeUp(q) && Enabled(q, step)
    ensures NoLostWakeUp(Next(q, step)) <==> !Strands(q, step)
  {
    hide NoLostWakeUp, WellLinked;
    match step
    case Start(j, w) => StartWakeUps(q, j, w);
    case Finish(w, outcome) => FinishWakeUps(q, w, outcome);
    case Crash(w) => CrashWakeUps(q, w);
    case Wake(j) => WakeKeepsWakeUps(q, j);
    case Abandon(j) => AbandonWakeUps(q, j);
    case Cancel(j) => CancelKeepsWakeUps(q, j);
    case Enqueue(j) => RowStepWakeUps(q, step);
    case Revive(j) => RowStepWakeUps(q, step);
    case MarkDone(j) => MarkDoneKeepsWakeUps(q, j);
    case Requeue(j) => RowStepWakeUps(q, step);
    case RunNow(j, outcome) =>
      if outcome == Succeeds { RunNowWakeUps(q, j); }
  }

  ghost predicate NeverStrands(q: Queue, steps: seq<Step>)
    requires Runnable(q, steps)
    decreases |steps|
  {
    steps == [] || (!Strands(q, steps[0]) && NeverStrands(Next(q, steps[0]), steps[1..]))
  }

  lemma {:induction false} RunsLoseNoWakeUp(q: Queue, steps: seq<Step>)
    requires WellLinked(q.rows) && NoLostWakeUp(q) && Runnable(q, steps) && NeverStrands(q, steps)
    ensures NoLostWakeUp(Run(q, steps))
    decreases |steps|
  {
    if steps != [] {
      StepStrandsExactly(q, steps[0]);
      StepsKeepStructure(q, steps[0]);
      SameStructureWellLinked(q.rows, Next(q, steps[0]).rows);
      RunsLoseNoWakeUp(Next(q, steps[0]), steps[1..]);
    }
  }

  // ------------------------------------------------------------------ who can strand a job

  // A step that is not a manual run, takes no job out of DONE and gives up no wake-up.
  predicate Forward(q: Queue, step: Step)
    requires Enabled(q, step)
  {
    match step
    case Finish(w, outcome) =>
      var worker := q.workers[w];
      q.rows[worker.uuid].state == Done ==>
        Perform(worker.retry, q.rows[worker.uuid].maxRetries, outcome).1 == ToDone
    case Requeue(j) => q.rows[j].state != Done
    case Cancel(j) => q.rows[j].state != Done
    case RunNow(_, outcome) => outcome != Succeeds
    case Abandon(_) => false
    case _ => true
  }

  predicate AllForward(q: Queue, steps: seq<Step>)
    requires Runnable(q, steps)
    decreases |steps|
  {
    steps == [] || (Forward(q, steps[0]) && AllForward(Next(q, steps[0]), steps[1..]))
  }

  // As long as no job leaves DONE, released jobs and loaded copies are up to date.
  ghost predicate UpToDate(q: Queue) {
    && WellLinked(q.rows)
    && (forall j :: j in q.rows && IsReleased(q.rows[j].state) ==> AllParentsDone(q.rows, j))
    && (forall w :: w in q.workers ==>
          && q.workers[w].parentsDone && q.workers[w].uuid in q.rows
          && AllParentsDone(q.rows, q.workers[w].uuid))
  }

  ghost predicate DoneStays(rows: Rows, rows': Rows) {
    && SameStructure(rows, rows')
    && forall j :: j in rows && rows[j].state == Done ==> rows'[j].state == Done
  }

  lemma ForwardKeepsDone(q: Queue, step: Step)
    requires WellLinked(q.rows) && Enabled(q, step) && Forward(q, step)
    ensures DoneStays(q.rows, Next(q, step).rows)
  {
    StepsKeepStructure(q, step);
    hide WellLinked, AllParentsDone, SameStructure, Selected;
  }

  lemma DoneParentsStay(rows: Rows, rows': Rows, j: Uuid)
    requires WellLinked(rows) && DoneStays(rows, rows') && j in rows && AllParentsDone(rows, j)
    ensures AllParentsDone(rows', j)
  {
    assert rows'[j].dependsOn == rows[j].dependsOn;
  }

  lemma ForwardNeverStrands(q: Queue, step: Step)
    requires UpToDate(q) && Enabled(q, step) && Forward(q, step)
    ensures !Strands(q, step)
  {
  }

  lemma WorkersStayUpToDate(q: Queue, step: Step)
    requires UpToDate(q) && Enabled(q, step)
    ensures var q' := Next(q, step);
      forall w :: w in q'.workers ==>
        && q'.workers[w].parentsDone && q'.workers[w].uuid in q.rows && AllParentsDone(q.rows, q'.workers[w].uuid)
  {
  }

  lemma ForwardStaysUpToDate(q: Queue, step: Step)
    requires UpToDate(q) && Enabled(q, step) && Forward(q, step)
    ensures UpToDate(Next(q, step)) && !Strands(q, step)
  {
    var q' := Next(q, step);
    ForwardKeepsDone(q, step);
    ForwardNeverStrands(q, step);
    SameStructureWellLinked(q.rows, q'.rows);
    forall j | j in q.rows && AllParentsDone(q.rows, j) ensures AllParentsDone(q'.rows, j) {
      DoneParentsStay(q.rows, q'.rows, j);
    }
    WorkersStayUpToDate(q, step);
    forall j | j in q'.rows && IsReleased(q'.rows[j].state) ensures AllParentsDone(q'.rows, j) {
      if step.MarkDone? {
        NewlyMarked(q, step.uuid, j);
      } else {
        NewlyReleased(q, step, j);
      }
    }
  }

  lemma NewlyReleased(q: Queue, step: Step, j: Uuid)
    requires UpToDate(q) && Enabled(q, step) && Forward(q, step) && !step.MarkDone?
    requires j in q.rows && IsReleased(Next(q, step).rows[j].state)
    ensures AllParentsDone(q.rows, j)
  {
    if step.Wake? {
      SelectedMeaning(q.rows, step.uuid, Done, j);
    } else {
      hide WellLinked, AllParentsDone, Selected, Perform, UpdateDependents, Revived;
    }
  }

  lemma NewlyMarked(q: Queue, i: Uuid, j: Uuid)
    requires UpToDate(q) && Enabled(q, MarkDone(i))
    requires j in q.rows && IsReleased(Next(q, MarkDone(i)).rows[j].state)
    ensures AllParentsDone(Next(q, MarkDone(i)).rows, j)
  {
    hide UpToDate, UpdateDependents, Selected, SameStructure;
    var rows := WithState(q.rows, i, Done);
    ReadyWhenMarked(q, i, j);
    QueryMeaning(rows, i, Done, Pending);
    QueryKeepsDone(rows, i, j);
  }

  lemma QueryKeepsDone(rows: Rows, i: Uuid, j: Uuid)
    requires i in rows && j in rows && AllParentsDone(rows, j)
    ensures AllParentsDone(UpdateDependents(rows, i, Done, Pending), j)
  {
    QueryMeaning(rows, i, Done, Pending);
    var rows' := UpdateDependents(rows, i, Done, Pending);
    hide UpdateDependents, Selected;
    forall p | p in rows[j].dependsOn && p in rows ensures rows'[p].state == Done {
      assert rows[p].state == Done;
    }
  }

  lemma ReadyWhenMarked(q: Queue, i: Uuid, j: Uuid)
    requires UpToDate(q) && i in q.rows && j in q.rows
    requires IsReleased(UpdateDependents(WithState(q.rows, i, Done), i, Done, Pending)[j].state)
    ensures AllParentsDone(WithState(q.rows, i, Done), j)
  {
    var rows := WithState(q.rows, i, Done);
    assert SameStructure(q.rows, rows);
    SameStructureWellLinked(q.rows, rows);
    QueryMeaning(rows, i, Done, Pending);
    SelectedMeaning(rows, i, Done, j);
    hide UpdateDependents, Selected, WellLinked, SameStructure;
    if !Selected(rows, i, Done, j) { assert j != i && AllParentsDone(q.rows, j); }
  }

  // Runs in which nobody requeues or cancels a done job or runs a job by hand, and no
  // wake-up is given up, never strand a job.
  lemma {:induction false} ForwardRunsNeverStrand(q: Queue, steps: seq<Step>)
    requires UpToDate(q) && Runnable(q, steps) && AllForward(q, steps)
    ensures NeverStrands(q, steps)
    decreases |steps|
  {
    if steps != [] {
      ForwardStaysUpToDate(q, steps[0]);
      ForwardRunsNeverStrand(Next(q, steps[0]), steps[1..]);
    }
  }

  // ------------------------------------------------------------------ no deadlock

  predicate IsActive(s: State) {
    s in {Pending, Enqueued, Started}
  }

  predicate IsGivenUp(s: State) {
    s in {Failed, Cancelled}
  }

  // What a waiting job can wait for: a job under way, one that was given up, or one that
  // still owes its wake-up.
  predicate IsReason(q: Queue, i: Uuid)
    requires i in q.rows
  {
    IsActive(q.rows[i].state) || IsGivenUp(q.rows[i].state) || i in q.owed
  }

  lemma WaitsForParent(q: Queue, j: Uuid) returns (p: Uuid)
    requires WellLinked(q.rows) && NoLostWakeUp(q) && j in q.rows && q.rows[j].state == WaitDependencies
    ensures p in q.rows && p in Parents(Dependencies(q.rows), j)
    ensures IsReason(q, p) || q.rows[p].state == WaitDependencies
  {
    if AllParentsDone(q.rows, j) {
      p :| p in q.rows[j].dependsOn && p in q.owed;
    } else {
      p :| p in q.rows[j].dependsOn && p in q.rows && q.rows[p].state != Done;
    }
  }

  // Every waiting job of an acyclic graph has such a reason among its own ancestors, so that
  // jobs that do not depend on a failed one are not held up by it.
  lemma WaitsForReason(q: Queue, j: Uuid) returns (i: Uuid)
    requires WellLinked(q.rows) && NoLostWakeUp(q) && Acyclic(Dependencies(q.rows))
    requires j in q.rows && q.rows[j].state == WaitDependencies
    ensures i in q.rows && Reaches(Dependencies(q.rows), i, j) && IsReason(q, i)
  {
    hide WellLinked, NoLostWakeUp, Reaches, Parents;
    var g := Dependencies(q.rows);
    var waiting := set k | k in q.rows && q.rows[k].state == WaitDependencies && ReachesOrIs(g, k, j);
    if k :| k in q.rows && Reaches(g, k, j) && IsReason(q, k) {
      i := k;
    } else {
      forall k | k in waiting ensures HasParentIn(g, waiting, k) {
        var p := WaitsForParent(q, k);
        ParentReaches(g, p, k, j);
        assert p in Parents(g, k) * waiting;
      }
      i := ParentedSetHasCycle(g, waiting, j);
    }
  }

  lemma ParentReaches(g: Links, p: Vertex, k: Vertex, j: Vertex)
    requires p in Parents(g, k) && ReachesOrIs(g, k, j)
    ensures Reaches(g, p, j)
  {
    EdgeReaches(g, p, k);
    ThenReachesOrIs(g, p, k, j);
  }

  // With no wake-up owed, a table without lost wake-ups is finished or some job can move
  // or has been given up.
  lemma NoDeadlock(q: Queue)
    requires WellLinked(q.rows) && NoLostWakeUp(q) && q.owed == {}
    requires Acyclic(Dependencies(q.rows))
    ensures || (forall j :: j in q.rows ==> q.rows[j].state == Done)
            || exists j :: j in q.rows && (IsActive(q.rows[j].state) || IsGivenUp(q.rows[j].state))
  {
    hide WellLinked, NoLostWakeUp, Reaches, Acyclic;
    if j :| j in q.rows && q.rows[j].state == WaitDependencies {
      var i := WaitsForReason(q, j);
    }
  }

  // ------------------------------------------------------------------ cancelling

  // Cancelling reaches the waiting children all of whose parents are then cancelled, and
  // nothing beyond them.
  lemma CancelReachesChildrenOnly(q: Queue, j: Uuid, c: Uuid)
    requires WellLinked(q.rows) && Enabled(q, Cancel(j)) && c in q.rows && c != j
    ensures var after := Next(q, Cancel(j)).rows[c];
      after.state != q.rows[c].state <==>
        && q.rows[c].state == WaitDependencies && j in q.rows[c].dependsOn
        && forall p :: p in q.rows[c].dependsOn && p != j ==> q.rows[p].state == Cancelled
  {
    var rows := WithState(q.rows, j, Cancelled);
    assert SameStructure(q.rows, rows);
    SameStructureWellLinked(q.rows, rows);
    SelectedMeaning(rows, j, Cancelled, c);
    assert rows[c] == q.rows[c];
    assert forall p :: p in q.rows[c].dependsOn && p != j ==> rows[p] == q.rows[p];
  }

  // Whether cancelling a job, as documented, leaves all its descendants cancelled: only if
  // each of them was, or is a waiting child whose other parents are.
  lemma CancelReachesAllExactly(q: Queue, j: Uuid)
    requires WellLinked(q.rows) && Enabled(q, Cancel(j))
    ensures var rows := Next(q, Cancel(j)).rows;
      (forall d :: d in q.rows && Reaches(Dependencies(q.rows), j, d) ==> rows[d].state == Cancelled) <==>
      (forall d :: d in q.rows && Reaches(Dependencies(q.rows), j, d) && d != j && q.rows[d].state != Cancelled ==>
         && q.rows[d].state == WaitDependencies && j in q.rows[d].dependsOn
         && forall p :: p in q.rows[d].dependsOn && p != j ==> q.rows[p].state == Cancelled)
  {
    var rows := Next(q, Cancel(j)).rows;
    hide Reaches, WellLinked, Selected;
    forall d | d in q.rows && d != j ensures rows[d].state == q.rows[d].state || rows[d].state == Cancelled {
    }
    forall d | d in q.rows && d != j
      ensures rows[d].state != q.rows[d].state <==>
        && q.rows[d].state == WaitDependencies && j in q.rows[d].dependsOn
        && forall p :: p in q.rows[d].dependsOn && p != j ==> q.rows[p].state == Cancelled
    {
      CancelReachesChildrenOnly(q, j, d);
    }
    assert rows[j].state == Cancelled;
  }
}
