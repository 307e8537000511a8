/** What every history of runs, steps and deployment targets keeps. */
module CiSafety {
  import opened Options
  import opened CiTables

  /** Identifiers are never reused, foreign keys hold, and run numbers are distinct per
      repository and below its counter. */
  ghost predicate Rows(runs: map<RunId, RunRow>, steps: map<StepId, StepRow>, counters: map<RepoId, nat>, usedRuns: set<RunId>,
                       usedSteps: set<StepId>)
  {
    && (forall r :: r in runs ==> r in usedRuns && runs[r].repo in counters && runs[r].number <= counters[runs[r].repo])
    && (forall s :: s in steps ==> s in usedSteps && steps[s].run in runs)
    && (forall r, q :: r in runs && q in runs && runs[r].repo == runs[q].repo && runs[r].number == runs[q].number ==> r == q)
  }

  /** A step's status fits its run's: an ended run has no pending or running step, a queued
      one no running step; an unfinished step has no exit code. */
  ghost predicate Fits(step: StepRow, status: RunStatus) {
    && (Ended(status) ==> Final(step.status))
    && (status == Queued ==> step.status != StepRunning && step.generation.None?)
    && (Open(step.status) ==> step.code.None?)
    && (step.generation.Some? ==> step.deploy)
  }

  ghost predicate Fitting(runs: map<RunId, RunRow>, steps: map<StepId, StepRow>) {
    forall s :: s in steps && steps[s].run in runs ==> Fits(steps[s], runs[steps[s].run].status)
  }

  /** A queued run is the highest-numbered run of its ref. */
  ghost predicate QueuedIsLatest(runs: map<RunId, RunRow>) {
    forall q, r :: q in runs && r in runs && runs[q].status == Queued && q != r && SameRef(runs[q], runs[r]) ==>
      runs[r].number < runs[q].number
  }

  ghost predicate SameRef(a: RunRow, b: RunRow) {
    a.repo == b.repo && a.ref == b.ref
  }

  /** The owner of a target is a deploy step of a run for that target, holds the target's
      current generation, has no receipt yet and was not overtaken. */
  ghost predicate Legitimate(runs: map<RunId, RunRow>, steps: map<StepId, StepRow>, key: TargetKey, row: TargetRow) {
    row.owner.Some? ==>
      var o := row.owner.value;
      && o.run in runs && o.step in steps && steps[o.step].run == o.run
      && KeyOf(runs[o.run]) == key
      && steps[o.step].generation == Some(row.generation)
      && steps[o.step].code.None?
      && (runs[o.run].trigger == ByPush ==> runs[o.run].number >= row.latest)
  }

  ghost predicate Owned(runs: map<RunId, RunRow>, steps: map<StepId, StepRow>, targets: map<TargetKey, TargetRow>) {
    forall k :: k in targets ==> Legitimate(runs, steps, k, targets[k])
  }

  /** Every generation given to a step was given to no other step of the target. */
  ghost predicate Generations(runs: map<RunId, RunRow>, steps: map<StepId, StepRow>, targets: map<TargetKey, TargetRow>) {
    && (forall s :: s in steps && steps[s].run in runs && steps[s].generation.Some? ==>
          KeyOf(runs[steps[s].run]) in targets && steps[s].generation.value <= targets[KeyOf(runs[steps[s].run])].generation)
    && (forall s, t :: s in steps && t in steps && s != t && steps[s].run in runs && steps[t].run in runs
                       && steps[s].generation.Some? && steps[s].generation == steps[t].generation ==>
          KeyOf(runs[steps[s].run]) != KeyOf(runs[steps[t].run]))
  }

  /** A recorded deployment stays below the target's generation while someone owns it. */
  ghost predicate Accounted(d: Deployment, targets: map<TargetKey, TargetRow>) {
    && d.key in targets && d.number <= targets[d.key].latest && d.generation <= targets[d.key].generation
    && (targets[d.key].owner.Some? ==> d.generation < targets[d.key].generation)
  }

  ghost predicate Logged(log: seq<Deployment>, targets: map<TargetKey, TargetRow>) {
    forall i :: 0 <= i < |log| ==> Accounted(log[i], targets)
  }

  /** A step with a recorded deployment has exited 0. */
  ghost predicate Receipted(log: seq<Deployment>, steps: map<StepId, StepRow>, usedSteps: set<StepId>) {
    forall i :: 0 <= i < |log| ==>
      log[i].step in usedSteps
      && (log[i].step in steps ==> steps[log[i].step].code == Some(0) && steps[log[i].step].status == StepPassed)
  }

  ghost predicate InLog(log: seq<Deployment>, step: StepId, run: RunId) {
    exists i :: 0 <= i < |log| && log[i].step == step && log[i].run == run
  }

  /** Every deploy step that passed has a recorded deployment: none is lost. */
  ghost predicate NothingLost(log: seq<Deployment>, steps: map<StepId, StepRow>) {
    forall s :: s in steps && steps[s].deploy && steps[s].status == StepPassed ==> InLog(log, s, steps[s].run)
  }

  /** One deployment per step; generations strictly grow; a push never goes backwards. */
  ghost predicate InOrder(log: seq<Deployment>) {
    && (forall i, j :: 0 <= i < j < |log| ==> log[i].step != log[j].step)
    && (forall i, j :: 0 <= i < j < |log| && log[i].key == log[j].key ==> log[i].generation < log[j].generation)
    && (forall i, j :: 0 <= i < j < |log| && log[i].key == log[j].key && log[j].trigger == ByPush ==> log[i].number <= log[j].number)
  }

  ghost predicate Inv(db: Db) {
    InvButQueue(db) && QueuedIsLatest(db.runs)
  }

  ghost predicate InvButQueue(db: Db) {
    && Rows(db.runs, db.steps, db.counters, db.usedRuns, db.usedSteps)
    && Fitting(db.runs, db.steps)
    && Owned(db.runs, db.steps, db.targets)
    && Generations(db.runs, db.steps, db.targets)
    && Logged(db.log, db.targets)
    && Receipted(db.log, db.steps, db.usedSteps)
    && NothingLost(db.log, db.steps)
    && InOrder(db.log)
  }

  // ----- transactions that only settle or release -----

  /** Steps may only change container flags and, while they are open, their status, without passing. */
  ghost predicate Calmer(before: map<StepId, StepRow>, after: map<StepId, StepRow>) {
    && after.Keys == before.Keys
    && (forall s :: s in before ==>
          && after[s].run == before[s].run && after[s].deploy == before[s].deploy
          && after[s].code == before[s].code && after[s].generation == before[s].generation
          && (after[s].status == before[s].status || (Open(before[s].status) && after[s].status != StepPassed)))
  }

  /** Runs may only change their status and flags. */
  ghost predicate SameRuns(before: map<RunId, RunRow>, after: map<RunId, RunRow>) {
    && after.Keys == before.Keys
    && (forall r :: r in before ==>
          && after[r].repo == before[r].repo && after[r].ref == before[r].ref && after[r].number == before[r].number
          && after[r].trigger == before[r].trigger && after[r].target == before[r].target
          && (after[r].status == Queued ==> before[r].status == Queued))
  }

  /** Targets may only lose their owner. */
  ghost predicate Looser(before: map<TargetKey, TargetRow>, after: map<TargetKey, TargetRow>) {
    && after.Keys == before.Keys
    && (forall k :: k in before ==> after[k] == before[k] || after[k] == before[k].(owner := None))
  }

  lemma CalmRows(db: Db, after: Db)
    requires Rows(db.runs, db.steps, db.counters, db.usedRuns, db.usedSteps)
    requires SameRuns(db.runs, after.runs) && Calmer(db.steps, after.steps)
    ensures Rows(after.runs, after.steps, db.counters, db.usedRuns, db.usedSteps)
  {
  }

  lemma CalmQueue(runs: map<RunId, RunRow>, after: map<RunId, RunRow>)
    requires QueuedIsLatest(runs) && SameRuns(runs, after)
    ensures QueuedIsLatest(after)
  {
  }

  lemma CalmOwned(db: Db, after: Db)
    requires Owned(db.runs, db.steps, db.targets)
    requires SameRuns(db.runs, after.runs) && Calmer(db.steps, after.steps) && Looser(db.targets, after.targets)
    ensures Owned(after.runs, after.steps, after.targets)
  {
    forall k | k in after.targets ensures Legitimate(after.runs, after.steps, k, after.targets[k]) {
      assert Legitimate(db.runs, db.steps, k, db.targets[k]);
    }
  }

  lemma CalmGenerations(db: Db, after: Db)
    requires Generations(db.runs, db.steps, db.targets)
    requires SameRuns(db.runs, after.runs) && Calmer(db.steps, after.steps) && Looser(db.targets, after.targets)
    ensures Generations(after.runs, after.steps, after.targets)
  {
    assert forall r :: r in db.runs ==> KeyOf(after.runs[r]) == KeyOf(db.runs[r]);
  }

  lemma CalmLog(db: Db, after: Db)
    requires Logged(db.log, db.targets) && Receipted(db.log, db.steps, db.usedSteps) && NothingLost(db.log, db.steps)
    requires Calmer(db.steps, after.steps) && Looser(db.targets, after.targets)
    ensures Logged(db.log, after.targets) && Receipted(db.log, after.steps, db.usedSteps) && NothingLost(db.log, after.steps)
  {
    forall i | 0 <= i < |db.log| ensures Accounted(db.log[i], after.targets) {
      assert Accounted(db.log[i], db.targets);
    }
  }

  /** A transaction that starts nothing new. */
  ghost predicate Calm(db: Db, after: Db) {
    && SameRuns(db.runs, after.runs) && Calmer(db.steps, after.steps) && Looser(db.targets, after.targets)
    && after.counters == db.counters && after.log == db.log && after.usedRuns == db.usedRuns && after.usedSteps == db.usedSteps
    && Fitting(after.runs, after.steps)
  }

  lemma KeepsButQueue(db: Db, after: Db)
    requires InvButQueue(db) && Calm(db, after)
    ensures InvButQueue(after)
  {
    CalmRows(db, after);
    CalmOwned(db, after);
    CalmGenerations(db, after);
    CalmLog(db, after);
  }

  lemma KeepsCalm(db: Db, after: Db)
    requires Inv(db) && Calm(db, after)
    ensures Inv(after)
  {
    KeepsButQueue(db, after);
    CalmQueue(db.runs, after.runs);
  }

  lemma SupersedeFits(db: Db, repo: RepoId, ref: string, before: Option<nat>)
    requires Fitting(db.runs, db.steps)
    ensures Fitting(Supersede(db, repo, ref, before).runs, Supersede(db, repo, ref, before).steps)
  {
    var after := Supersede(db, repo, ref, before);
    forall s | s in after.steps && after.steps[s].run in after.runs
      ensures Fits(after.steps[s], after.runs[after.steps[s].run].status)
    {
      var step := db.steps[s];
      assert Fits(step, db.runs[step.run].status);
      assert after.steps[s].code == step.code && after.steps[s].generation == step.generation;
    }
  }

  lemma SupersedeSettles(db: Db, repo: RepoId, ref: string, before: Option<nat>)
    ensures SameRuns(db.runs, Supersede(db, repo, ref, before).runs) && Calmer(db.steps, Supersede(db, repo, ref, before).steps)
  {
  }

  lemma SupersedeIsCalm(db: Db, repo: RepoId, ref: string, before: Option<nat>)
    requires Fitting(db.runs, db.steps)
    ensures Calm(db, Supersede(db, repo, ref, before))
  {
    SupersedeFits(db, repo, ref, before);
    SupersedeSettles(db, repo, ref, before);
  }

  lemma ClaimIsCalm(db: Db, run: RunId, worker: WorkerId)
    requires Fitting(db.runs, db.steps) && CanClaim(db, run)
    ensures Calm(db, Claim(db, run, worker))
  {
  }

  lemma StartStepIsCalm(db: Db, step: StepId)
    requires Fitting(db.runs, db.steps) && CanStartStep(db, step)
    ensures Calm(db, StartStep(db, step))
  {
  }

  /** A run that ends with its open steps settled. */
  lemma SettledFits(runs: map<RunId, RunRow>, steps: map<StepId, StepRow>, run: RunId, status: RunStatus,
                    runningBecomes: StepStatus, pendingBecomes: StepStatus)
    requires Fitting(runs, steps) && run in runs && Ended(status) && Final(runningBecomes) && Final(pendingBecomes)
    ensures Fitting(runs[run := runs[run].(status := status)], Settle(steps, run, runningBecomes, pendingBecomes))
  {
    var ended, settled := runs[run := runs[run].(status := status)], Settle(steps, run, runningBecomes, pendingBecomes);
    forall s | s in settled && settled[s].run in ended ensures Fits(settled[s], ended[settled[s].run].status) {
      var before := steps[s];
      assert Fits(before, runs[before.run].status);
      assert settled[s].run == before.run && settled[s].code == before.code && settled[s].generation == before.generation;
    }
  }

  lemma SettledCalmer(steps: map<StepId, StepRow>, run: RunId, runningBecomes: StepStatus, pendingBecomes: StepStatus)
    requires runningBecomes != StepPassed && pendingBecomes != StepPassed
    ensures Calmer(steps, Settle(steps, run, runningBecomes, pendingBecomes))
  {
  }

  lemma FinishIsCalm(db: Db, run: RunId, status: RunStatus)
    requires Fitting(db.runs, db.steps) && CanFinish(db, run, status)
    ensures Calm(db, Finish(db, run, status))
  {
    var cancelled := status == Cancelled;
    SettledFits(db.runs, db.steps, run, status, if cancelled then StepCancelled else StepFailed,
                if cancelled then StepCancelled else StepSkipped);
    SettledCalmer(db.steps, run, if cancelled then StepCancelled else StepFailed, if cancelled then StepCancelled else StepSkipped);
  }

  lemma CancelIsCalm(db: Db, run: RunId)
    requires Fitting(db.runs, db.steps) && CanCancel(db, run)
    ensures Calm(db, Cancel(db, run))
  {
    if db.runs[run].status == Queued {
      CancelQueuedIsCalm(db, run);
    } else {
      FlagIsCalm(db, run);
    }
  }

  lemma CancelQueuedIsCalm(db: Db, run: RunId)
    requires Fitting(db.runs, db.steps) && run in db.runs && db.runs[run].status == Queued
    ensures Calm(db, Cancel(db, run))
  {
    SettledFits(db.runs, db.steps, run, Cancelled, StepCancelled, StepCancelled);
    SettledCalmer(db.steps, run, StepCancelled, StepCancelled);
  }

  lemma FlagIsCalm(db: Db, run: RunId)
    requires Fitting(db.runs, db.steps) && run in db.runs && db.runs[run].status == Running
    ensures Calm(db, Cancel(db, run))
  {
    FlaggedFits(db.runs, db.steps, run);
  }

  lemma FlaggedFits(runs: map<RunId, RunRow>, steps: map<StepId, StepRow>, run: RunId)
    requires Fitting(runs, steps) && run in runs
    ensures Fitting(runs[run := runs[run].(cancelRequested := true)], steps)
  {
  }

  lemma ConfirmStoppedIsCalm(db: Db, run: RunId)
    requires Fitting(db.runs, db.steps)
    ensures Calm(db, ConfirmStopped(db, run))
  {
  }

  lemma RemovalIsCalm(db: Db, run: RunId)
    requires Fitting(db.runs, db.steps)
    ensures Calm(db, db.(steps := RemoveContainers(db.steps, run)))
  {
  }

  lemma FlagsAreCalm(db: Db, step: StepId, planned: bool, removed: bool)
    requires Fitting(db.runs, db.steps) && step in db.steps
    ensures Calm(db, db.(steps := db.steps[step := db.steps[step].(planned := planned, removed := removed)]))
  {
  }

  lemma ReleaseIsCalm(db: Db, gone: set<RunId>)
    requires Fitting(db.runs, db.steps)
    ensures Calm(db, db.(targets := ReleaseOwners(db.targets, gone)))
  {
  }

  lemma KeepsFinish(db: Db, run: RunId, status: RunStatus)
    requires Inv(db) && CanFinish(db, run, status)
    ensures Inv(Finish(db, run, status))
  {
    FinishIsCalm(db, run, status);
    KeepsCalm(db, Finish(db, run, status));
  }

  lemma {:induction false} KeepsFailLost(db: Db, lost: seq<RunId>)
    requires Inv(db)
    ensures Inv(FailLost(db, lost))
  {
    if lost != [] {
      var front, run := lost[..|lost| - 1], lost[|lost| - 1];
      KeepsFailLost(db, front);
      if CanFinish(FailLost(db, front), run, Failed) {
        KeepsFinish(FailLost(db, front), run, Failed);
      }
    }
  }

  lemma KeepsConfirmStopped(db: Db, run: RunId)
    requires Inv(db)
    ensures Inv(ConfirmStopped(db, run))
  {
    ConfirmStoppedIsCalm(db, run);
    KeepsCalm(db, ConfirmStopped(db, run));
  }

  lemma KeepsRemoval(db: Db, run: RunId)
    requires Inv(db)
    ensures Inv(db.(steps := RemoveContainers(db.steps, run)))
  {
    RemovalIsCalm(db, run);
    KeepsCalm(db, db.(steps := RemoveContainers(db.steps, run)));
  }

  lemma {:induction false} KeepsReleaseRuns(db: Db, runs: seq<RunId>)
    requires Inv(db)
    ensures Inv(ReleaseRuns(db, runs))
  {
    if runs != [] {
      var before, run := ReleaseRuns(db, runs[..|runs| - 1]), runs[|runs| - 1];
      KeepsReleaseRuns(db, runs[..|runs| - 1]);
      if CanFinish(before, run, Failed) {
        KeepsFinish(before, run, Failed);
        KeepsConfirmStopped(Finish(before, run, Failed), run);
        KeepsRemoval(ConfirmStopped(Finish(before, run, Failed), run), run);
      } else {
        KeepsRemoval(before, run);
      }
    }
  }

  lemma KeepsReleaseWorker(db: Db, worker: WorkerId, only: Option<RunId>, runs: seq<RunId>)
    requires Inv(db)
    ensures Inv(ReleaseWorker(db, worker, only, runs))
  {
    KeepsReleaseRuns(db, runs);
    ReleaseIsCalm(ReleaseRuns(db, runs),
                  OfWorker(db.runs, worker, only));
    KeepsCalm(ReleaseRuns(db, runs), ReleaseWorker(db, worker, only, runs));
  }

  // ----- new runs -----

  lemma {:induction false} StepsAdded(steps: map<StepId, StepRow>, run: RunId, queued: bool, plan: seq<NewStep>)
    requires forall i :: 0 <= i < |plan| ==> plan[i].id !in steps
    ensures var after := AddSteps(steps, run, queued, plan);
            && after.Keys == steps.Keys + Ids(plan)
            && (forall s :: s in steps ==> after[s] == steps[s])
            && (forall s :: s in after && s !in steps ==>
                  after[s].run == run && after[s].code.None? && after[s].generation.None? && !after[s].planned
                  && after[s].status == if queued && after[s].status == StepPending then StepPending else StepSkipped)
  {
    if plan != [] {
      var front := plan[..|plan| - 1];
      assert forall i :: 0 <= i < |front| ==> front[i] == plan[i];
      StepsAdded(steps, run, queued, front);
      assert Ids(plan) == Ids(front) + {plan[|plan| - 1].id};
    }
  }

  ghost predicate SameButNew(db: Db, added: Db, id: RunId) {
    && id !in db.runs && added.runs.Keys == db.runs.Keys + {id}
    && (forall r :: r in db.runs ==> added.runs[r] == db.runs[r])
    && (forall s :: s in db.steps ==> s in added.steps && added.steps[s] == db.steps[s])
    && (forall s :: s in added.steps && s !in db.steps ==>
          s !in db.usedSteps && added.steps[s].run == id && added.steps[s].generation.None? && added.steps[s].status != StepPassed)
    && added.targets == db.targets && added.log == db.log
  }

  lemma NewRunOwned(db: Db, added: Db, id: RunId)
    requires SameButNew(db, added, id) && Owned(db.runs, db.steps, db.targets)
    ensures Owned(added.runs, added.steps, added.targets)
  {
    forall k | k in added.targets ensures Legitimate(added.runs, added.steps, k, added.targets[k]) {
      assert Legitimate(db.runs, db.steps, k, db.targets[k]);
    }
  }

  lemma NewRunGenerations(db: Db, added: Db, id: RunId)
    requires SameButNew(db, added, id) && Generations(db.runs, db.steps, db.targets)
    requires forall s :: s in db.steps ==> db.steps[s].run in db.runs
    ensures Generations(added.runs, added.steps, added.targets)
  {
    assert forall s :: s in added.steps && added.steps[s].generation.Some? ==> s in db.steps;
  }

  lemma NewRunReceipted(db: Db, added: Db, id: RunId)
    requires SameButNew(db, added, id) && Receipted(db.log, db.steps, db.usedSteps) && NothingLost(db.log, db.steps)
    requires db.usedSteps <= added.usedSteps
    ensures Receipted(added.log, added.steps, added.usedSteps) && NothingLost(added.log, added.steps)
  {
    forall i | 0 <= i < |added.log|
      ensures added.log[i].step in added.usedSteps
      ensures added.log[i].step in added.steps ==>
                added.steps[added.log[i].step].code == Some(0) && added.steps[added.log[i].step].status == StepPassed
    {
      assert db.log[i].step in db.usedSteps;
    }
  }

  /** The new run has the highest number, and no other queued run of its ref is left. */
  lemma NewRunIsLatest(runs: map<RunId, RunRow>, id: RunId, row: RunRow, after: map<RunId, RunRow>)
    requires QueuedIsLatest(runs) && id !in runs
    requires forall r :: r in runs && runs[r].repo == row.repo ==> runs[r].number < row.number
    requires after.Keys == runs.Keys + {id} && after[id] == row
    requires forall r :: r in runs ==>
      after[r] == if Superseded(runs[r], row.repo, row.ref, Some(row.number)) then runs[r].(status := Cancelled) else runs[r]
    ensures QueuedIsLatest(after)
  {
  }

  lemma NewStepsFit(db: Db, id: RunId, row: RunRow, plan: seq<NewStep>)
    requires Fitting(db.runs, db.steps) && id !in db.runs && !Ended(row.status) == (row.status == Queued) && row.status != Running
    requires forall s :: s in db.steps ==> db.steps[s].run in db.runs
    requires forall i :: 0 <= i < |plan| ==> plan[i].id !in db.steps
    ensures Fitting(db.runs[id := row], AddSteps(db.steps, id, row.status == Queued, plan))
  {
    StepsAdded(db.steps, id, row.status == Queued, plan);
    var steps := AddSteps(db.steps, id, row.status == Queued, plan);
    forall s | s in steps && steps[s].run in db.runs[id := row] ensures Fits(steps[s], db.runs[id := row][steps[s].run].status) {
      if s in db.steps {
        assert Fits(db.steps[s], db.runs[db.steps[s].run].status);
      }
    }
  }

  lemma InsertedRows(db: Db, id: RunId, row: RunRow, plan: seq<NewStep>)
    requires Rows(db.runs, db.steps, db.counters, db.usedRuns, db.usedSteps)
    requires id !in db.usedRuns && row.repo in db.counters && row.number == db.counters[row.repo] + 1
    requires forall i :: 0 <= i < |plan| ==> plan[i].id !in db.usedSteps
    ensures var t := Insert(db, id, row, plan);
            Rows(t.runs, t.steps, t.counters, t.usedRuns, t.usedSteps)
  {
    StepsAdded(db.steps, id, row.status == Queued, plan);
  }

  lemma InsertedSame(db: Db, id: RunId, row: RunRow, plan: seq<NewStep>)
    requires (forall s :: s in db.steps ==> s in db.usedSteps) && id !in db.runs
    requires forall i :: 0 <= i < |plan| ==> plan[i].id !in db.usedSteps
    ensures SameButNew(db, Insert(db, id, row, plan), id)
  {
    StepsAdded(db.steps, id, row.status == Queued, plan);
    IdsUnused(plan, db.usedSteps);
  }

  lemma IdsUnused(plan: seq<NewStep>, used: set<StepId>)
    requires forall i :: 0 <= i < |plan| ==> plan[i].id !in used
    ensures forall s :: s in Ids(plan) ==> s !in used
  {
  }

  /** All of the invariant but the order of queued runs holds once the rows are inserted. */
  lemma Inserted(db: Db, id: RunId, row: RunRow, plan: seq<NewStep>)
    requires Inv(db) && id !in db.usedRuns && row.repo in db.counters && row.number == db.counters[row.repo] + 1
    requires row.status == Queued || row.status == Passed || row.status == Failed
    requires forall i :: 0 <= i < |plan| ==> plan[i].id !in db.usedSteps
    ensures InvButQueue(Insert(db, id, row, plan))
  {
    var t := Insert(db, id, row, plan);
    InsertedRows(db, id, row, plan);
    InsertedSame(db, id, row, plan);
    NewStepsFit(db, id, row, plan);
    NewRunOwned(db, t, id);
    NewRunGenerations(db, t, id);
    NewRunReceipted(db, t, id);
  }

  lemma KeepsCreate(db: Db, id: RunId, row: RunRow, plan: seq<NewStep>)
    requires Inv(db) && CanCreate(db, id, row, plan)
    ensures Inv(Create(db, id, row, plan))
  {
    Inserted(db, id, row, plan);
    CreatedQueue(db, id, row, plan);
    SupersededInv(Insert(db, id, row, plan), row.repo, row.ref, Some(row.number));
  }

  lemma SupersededInv(db: Db, repo: RepoId, ref: string, before: Option<nat>)
    requires InvButQueue(db) && QueuedIsLatest(Supersede(db, repo, ref, before).runs)
    ensures Inv(Supersede(db, repo, ref, before))
  {
    SupersedeIsCalm(db, repo, ref, before);
    KeepsButQueue(db, Supersede(db, repo, ref, before));
  }

  lemma CreatedQueue(db: Db, id: RunId, row: RunRow, plan: seq<NewStep>)
    requires QueuedIsLatest(db.runs) && Rows(db.runs, db.steps, db.counters, db.usedRuns, db.usedSteps)
    requires id !in db.usedRuns && row.repo in db.counters && row.number == db.counters[row.repo] + 1
    ensures QueuedIsLatest(Supersede(Insert(db, id, row, plan), row.repo, row.ref, Some(row.number)).runs)
  {
    NewRunIsLatest(db.runs, id, row, Supersede(Insert(db, id, row, plan), row.repo, row.ref, Some(row.number)).runs);
  }

  // ----- deletion of old runs -----

  lemma PrunedRows(db: Db, run: RunId)
    requires Rows(db.runs, db.steps, db.counters, db.usedRuns, db.usedSteps)
    ensures var t := Prune(db, run);
            Rows(t.runs, t.steps, t.counters, t.usedRuns, t.usedSteps)
  {
  }

  lemma PrunedFits(db: Db, run: RunId)
    requires Fitting(db.runs, db.steps)
    ensures Fitting(Prune(db, run).runs, Prune(db, run).steps)
  {
    var t := Prune(db, run);
    forall s | s in t.steps && t.steps[s].run in t.runs ensures Fits(t.steps[s], t.runs[t.steps[s].run].status) {
      assert Fits(db.steps[s], db.runs[db.steps[s].run].status);
    }
  }

  lemma PrunedOwned(db: Db, run: RunId)
    requires Owned(db.runs, db.steps, db.targets) && !OwnsTarget(db, run)
    ensures Owned(Prune(db, run).runs, Prune(db, run).steps, db.targets)
  {
    var t := Prune(db, run);
    forall k | k in db.targets ensures Legitimate(t.runs, t.steps, k, db.targets[k]) {
      assert Legitimate(db.runs, db.steps, k, db.targets[k]);
    }
  }

  /** Fewer steps of fewer runs share no more generations. */
  lemma FewerGenerations(db: Db, runs: map<RunId, RunRow>, steps: map<StepId, StepRow>)
    requires Generations(db.runs, db.steps, db.targets)
    requires forall r :: r in runs ==> r in db.runs && runs[r] == db.runs[r]
    requires forall s :: s in steps ==> s in db.steps && steps[s] == db.steps[s]
    ensures Generations(runs, steps, db.targets)
  {
  }

  lemma KeepsPrune(db: Db, run: RunId)
    requires Inv(db) && CanPrune(db, run)
    ensures Inv(Prune(db, run))
  {
    PrunedRows(db, run);
    PrunedFits(db, run);
    PrunedOwned(db, run);
    FewerGenerations(db, Prune(db, run).runs, Prune(db, run).steps);
  }

  // ----- acquiring a target -----

  lemma AcquiredOwned(db: Db, run: RunId, step: StepId)
    requires Owned(db.runs, db.steps, db.targets) && Fitting(db.runs, db.steps) && CanDeploy(db, run, step)
    ensures var t := Acquire(db, run, step);
            Owned(t.runs, t.steps, t.targets) && Fitting(t.runs, t.steps)
  {
    var t := Acquire(db, run, step);
    var key := KeyOf(db.runs[run]);
    assert Fits(db.steps[step], db.runs[run].status);
    forall k | k in t.targets ensures Legitimate(t.runs, t.steps, k, t.targets[k]) {
      if k in db.targets {
        assert Legitimate(db.runs, db.steps, k, db.targets[k]);
      }
    }
  }

  lemma AcquiredGenerations(db: Db, run: RunId, step: StepId)
    requires Owned(db.runs, db.steps, db.targets) && Generations(db.runs, db.steps, db.targets) && CanDeploy(db, run, step)
    ensures var t := Acquire(db, run, step);
            Generations(t.runs, t.steps, t.targets)
  {
    var t := Acquire(db, run, step);
    var key := KeyOf(db.runs[run]);
    if key in db.targets {
      assert Legitimate(db.runs, db.steps, key, db.targets[key]);
    }
    assert forall s :: s in db.steps && s != step ==> t.steps[s] == db.steps[s];
  }

  lemma KeepsAcquire(db: Db, run: RunId, step: StepId)
    requires Inv(db) && CanDeploy(db, run, step)
    ensures Inv(Acquire(db, run, step))
  {
    var t := Acquire(db, run, step);
    AcquiredOwned(db, run, step);
    AcquiredGenerations(db, run, step);
    AcquiredRest(db, run, step);
  }

  lemma AcquiredRest(db: Db, run: RunId, step: StepId)
    requires Rows(db.runs, db.steps, db.counters, db.usedRuns, db.usedSteps)
    requires Logged(db.log, db.targets) && Receipted(db.log, db.steps, db.usedSteps) && CanDeploy(db, run, step)
    ensures var t := Acquire(db, run, step);
            && Rows(t.runs, t.steps, t.counters, t.usedRuns, t.usedSteps)
            && Logged(t.log, t.targets) && Receipted(t.log, t.steps, t.usedSteps)
  {
    var t := Acquire(db, run, step);
    forall i | 0 <= i < |db.log| ensures Accounted(db.log[i], t.targets) {
      assert Accounted(db.log[i], db.targets);
    }
  }

  // ----- receipts -----

  /** The log after a deployment is recorded by the target's owner. */
  lemma RecordedInOrder(db: Db, run: RunId, step: StepId)
    requires InOrder(db.log) && Logged(db.log, db.targets) && Receipted(db.log, db.steps, db.usedSteps)
    requires Owned(db.runs, db.steps, db.targets) && Owns(db, run, step)
    ensures InOrder(RecordDeployment(db, run, step).log)
  {
    var key := KeyOf(db.runs[run]);
    assert Legitimate(db.runs, db.steps, key, db.targets[key]);
    forall i | 0 <= i < |db.log|
      ensures db.log[i].step != step
      ensures db.log[i].key == key ==> db.log[i].generation < db.targets[key].generation && db.log[i].number <= db.targets[key].latest
    {
      assert Accounted(db.log[i], db.targets);
    }
  }

  /** After the receipt nobody is left owning a target through this step. */
  lemma ClearedOwned(db: Db, run: RunId, step: StepId, status: StepStatus, code: Option<int>, recovery: bool)
    requires CanFinishStep(db, run, step, status, code, recovery)
    requires Owned(db.runs, db.steps, db.targets) && Fits(db.steps[step], db.runs[run].status)
    ensures var t := FinishStep(db, run, step, status, code, recovery);
            Owned(t.runs, t.steps, t.targets)
  {
    var t := FinishStep(db, run, step, status, code, recovery);
    forall k | k in t.targets ensures Legitimate(t.runs, t.steps, k, t.targets[k]) {
      assert Legitimate(db.runs, db.steps, k, db.targets[k]);
    }
  }

  lemma FinishedFits(db: Db, run: RunId, step: StepId, status: StepStatus, code: Option<int>, recovery: bool)
    requires Fitting(db.runs, db.steps) && CanFinishStep(db, run, step, status, code, recovery)
    ensures Fits(db.steps[step], db.runs[run].status)
    ensures var t := FinishStep(db, run, step, status, code, recovery);
            Fitting(t.runs, t.steps)
  {
    FinishedSteps(db, run, step, status, code, recovery);
  }

  /** A step without a receipt has no deployment on record. */
  lemma NotLogged(db: Db, run: RunId, step: StepId, recovery: bool)
    requires Receipted(db.log, db.steps, db.usedSteps) && Awaited(db, run, step, recovery)
    ensures forall i :: 0 <= i < |db.log| ==> db.log[i].step != step
  {
  }

  lemma FinishedAccounts(db: Db, run: RunId, step: StepId, status: StepStatus, code: Option<int>, recovery: bool)
    requires Logged(db.log, db.targets) && CanFinishStep(db, run, step, status, code, recovery)
    ensures var t := FinishStep(db, run, step, status, code, recovery);
            Logged(t.log, t.targets)
  {
    var t := FinishStep(db, run, step, status, code, recovery);
    forall i | 0 <= i < |t.log| ensures Accounted(t.log[i], t.targets) {
      if i < |db.log| {
        assert Accounted(db.log[i], db.targets);
      }
    }
  }

  lemma FinishedLosesNothing(db: Db, run: RunId, step: StepId, status: StepStatus, code: Option<int>, recovery: bool)
    requires NothingLost(db.log, db.steps) && CanFinishStep(db, run, step, status, code, recovery)
    ensures var t := FinishStep(db, run, step, status, code, recovery);
            NothingLost(t.log, t.steps)
  {
    var t := FinishStep(db, run, step, status, code, recovery);
    assert db.log <= t.log;
    forall s | s in t.steps && t.steps[s].deploy && t.steps[s].status == StepPassed ensures InLog(t.log, s, t.steps[s].run) {
      if s == step {
        assert t.log[|db.log|].step == step && t.log[|db.log|].run == run;
      } else {
        var i :| 0 <= i < |db.log| && db.log[i].step == s && db.log[i].run == db.steps[s].run;
        assert t.log[i] == db.log[i];
      }
    }
  }

  lemma FinishedLog(db: Db, run: RunId, step: StepId, status: StepStatus, code: Option<int>, recovery: bool)
    requires InOrder(db.log) && Logged(db.log, db.targets) && Receipted(db.log, db.steps, db.usedSteps)
    requires Owned(db.runs, db.steps, db.targets)
    requires Rows(db.runs, db.steps, db.counters, db.usedRuns, db.usedSteps)
    requires CanFinishStep(db, run, step, status, code, recovery)
    ensures var t := FinishStep(db, run, step, status, code, recovery);
            InOrder(t.log) && Receipted(t.log, t.steps, t.usedSteps)
  {
    NotLogged(db, run, step, recovery);
    if Deploys(db, step, status) {
      RecordedInOrder(db, run, step);
    }
  }

  /** Neither keys nor generations depend on a step's status and exit code. */
  lemma SameSteps(db: Db, steps: map<StepId, StepRow>, targets: map<TargetKey, TargetRow>)
    requires Rows(db.runs, db.steps, db.counters, db.usedRuns, db.usedSteps) && Generations(db.runs, db.steps, db.targets)
    requires steps.Keys == db.steps.Keys && targets.Keys == db.targets.Keys
    requires forall s :: s in db.steps ==> steps[s].run == db.steps[s].run && steps[s].generation == db.steps[s].generation
    requires forall k :: k in db.targets ==> targets[k].generation == db.targets[k].generation
    ensures Rows(db.runs, steps, db.counters, db.usedRuns, db.usedSteps) && Generations(db.runs, steps, targets)
  {
  }

  lemma FinishedSteps(db: Db, run: RunId, step: StepId, status: StepStatus, code: Option<int>, recovery: bool)
    requires CanFinishStep(db, run, step, status, code, recovery)
    ensures var t := FinishStep(db, run, step, status, code, recovery);
            && t.runs == db.runs && t.counters == db.counters && t.usedRuns == db.usedRuns && t.usedSteps == db.usedSteps
            && t.steps == db.steps[step := db.steps[step].(status := status, code := code)]
  {
  }

  lemma FinishedTargets(db: Db, run: RunId, step: StepId, status: StepStatus, code: Option<int>, recovery: bool)
    requires CanFinishStep(db, run, step, status, code, recovery)
    ensures var t := FinishStep(db, run, step, status, code, recovery);
            t.targets.Keys == db.targets.Keys && forall k :: k in db.targets ==> t.targets[k].generation == db.targets[k].generation
  {
  }

  lemma FinishedRows(db: Db, run: RunId, step: StepId, status: StepStatus, code: Option<int>, recovery: bool)
    requires Rows(db.runs, db.steps, db.counters, db.usedRuns, db.usedSteps) && Generations(db.runs, db.steps, db.targets)
    requires CanFinishStep(db, run, step, status, code, recovery)
    ensures var t := FinishStep(db, run, step, status, code, recovery);
            && t.runs == db.runs && t.usedSteps == db.usedSteps
            && Rows(t.runs, t.steps, t.counters, t.usedRuns, t.usedSteps) && Generations(t.runs, t.steps, t.targets)
  {
    FinishedSteps(db, run, step, status, code, recovery);
    FinishedTargets(db, run, step, status, code, recovery);
    var t := FinishStep(db, run, step, status, code, recovery);
    SameSteps(db, t.steps, t.targets);
  }

  lemma KeepsFinishStep(db: Db, run: RunId, step: StepId, status: StepStatus, code: Option<int>, recovery: bool)
    requires Inv(db) && CanFinishStep(db, run, step, status, code, recovery)
    ensures Inv(FinishStep(db, run, step, status, code, recovery))
  {
    FinishedRows(db, run, step, status, code, recovery);
    FinishedFits(db, run, step, status, code, recovery);
    ClearedOwned(db, run, step, status, code, recovery);
    FinishedLog(db, run, step, status, code, recovery);
    FinishedAccounts(db, run, step, status, code, recovery);
    FinishedLosesNothing(db, run, step, status, code, recovery);
  }

  // ----- all transactions -----

  lemma KeepsQuiet(db: Db, step: Step)
    requires Inv(db) && Enabled(db, step)
    requires step.CancelQueuedTx? || step.ClaimTx? || step.StepStartedTx? || step.CancelTx? || step.PlanContainerTx?
             || step.ContainerRemovedTx?
    ensures Inv(Effect(db, step))
  {
    match step
    case CancelQueuedTx(repo, ref) => SupersedeIsCalm(db, repo, ref, None); KeepsCalm(db, Effect(db, step));
    case ClaimTx(run, worker) => ClaimIsCalm(db, run, worker); KeepsCalm(db, Effect(db, step));
    case StepStartedTx(s) => StartStepIsCalm(db, s); KeepsCalm(db, Effect(db, step));
    case CancelTx(run) => CancelIsCalm(db, run); KeepsCalm(db, Effect(db, step));
    case PlanContainerTx(_, s) => FlagsAreCalm(db, s, true, db.steps[s].removed); KeepsCalm(db, Effect(db, step));
    case ContainerRemovedTx(s) => FlagsAreCalm(db, s, db.steps[s].planned, true); KeepsCalm(db, Effect(db, step));
  }

  lemma ConfirmStoppedEffect(db: Db, run: RunId)
    ensures Effect(db, ConfirmStoppedTx(run)) == ConfirmStopped(db, run)
  {
  }

  lemma KeepsEnding(db: Db, step: Step) returns (t: Db)
    requires Inv(db) && Enabled(db, step)
    requires step.FinishTx? || step.FailLostTx? || step.ConfirmStoppedTx? || step.ContainersRemovedTx?
    ensures t == Effect(db, step) && Inv(t)
  {
    t := Effect(db, step);
    if step.FinishTx? {
      KeepsFinish(db, step.run, step.status);
    } else if step.FailLostTx? {
      KeepsFailLost(db, step.lost);
    } else if step.ConfirmStoppedTx? {
      KeepsConfirmStopped(db, step.run);
      ConfirmStoppedEffect(db, step.run);
    } else {
      KeepsRemoval(db, step.run);
    }
  }

  lemma KeepsClearing(db: Db, step: Step) returns (t: Db)
    requires Inv(db) && Enabled(db, step) && (step.ReleaseWorkerTx? || step.PruneRunTx?)
    ensures t == Effect(db, step) && Inv(t)
  {
    match step
    case ReleaseWorkerTx(worker, only, runs) => t := ReleaseWorker(db, worker, only, runs); KeepsReleaseWorker(db, worker, only, runs);
    case PruneRunTx(run) => t := Prune(db, run); KeepsPrune(db, run);
  }

  lemma KeepsWork(db: Db, step: Step) returns (t: Db)
    requires Inv(db) && Enabled(db, step)
    requires step.CreateTx? || step.BeginDeploymentTx? || step.StepFinishedTx? || step.RecoverStepExitTx?
    ensures t == Effect(db, step) && Inv(t)
  {
    match step
    case CreateTx(id, row, plan) => t := Create(db, id, row, plan); KeepsCreate(db, id, row, plan);
    case BeginDeploymentTx(run, s) => t := Acquire(db, run, s); KeepsAcquire(db, run, s);
    case StepFinishedTx(run, s, status, code) =>
      t := FinishStep(db, run, s, status, code, false);
      KeepsFinishStep(db, run, s, status, code, false);
    case RecoverStepExitTx(run, s, exit) =>
      t := FinishStep(db, run, s, ExitStatus(exit), Some(exit), true);
      KeepsFinishStep(db, run, s, ExitStatus(exit), Some(exit), true);
  }

  lemma KeepsEach(db: Db, step: Step) returns (t: Db)
    requires Inv(db) && Enabled(db, step)
    ensures t == Effect(db, step) && Inv(t)
  {
    if step.CreateTx? || step.BeginDeploymentTx? || step.StepFinishedTx? || step.RecoverStepExitTx? {
      t := KeepsWork(db, step);
    } else if step.ReleaseWorkerTx? || step.PruneRunTx? {
      t := KeepsClearing(db, step);
    } else if step.FinishTx? || step.FailLostTx? || step.ConfirmStoppedTx? || step.ContainersRemovedTx? {
      t := KeepsEnding(db, step);
    } else {
      t := Effect(db, step);
      KeepsQuiet(db, step);
    }
  }

  /** Every transaction keeps the invariant. */
  lemma Keeps(db: Db, step: Step)
    requires Inv(db) && Enabled(db, step)
    ensures Inv(Effect(db, step))
  {
    var t := KeepsEach(db, step);
  }
}
