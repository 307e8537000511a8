/** A repository in which nothing executes, and that only a claim can end this. */
module Quiet {
  import opened Options
  import opened CiTables
  import opened CiSafety

  /** No run is running, no planned container is left, no target is owned. */
  predicate Idle(db: Db, repo: RepoId) {
    && (forall r :: r in db.runs && db.runs[r].repo == repo ==> db.runs[r].status != Running)
    && (forall s :: s in db.steps && db.steps[s].run in db.runs && db.runs[db.steps[s].run].repo == repo ==>
          !LeftBehind(db.steps[s]))
    && (forall k :: k in db.targets && k.repo == repo ==> db.targets[k].owner.None?)
  }

  predicate LeftBehind(step: StepRow) {
    step.planned && !step.removed
  }

  /** Nothing executes after that did not execute before. */
  ghost predicate Quieter(db: Db, after: Db) {
    && (forall r :: r in after.runs && after.runs[r].status == Running ==>
          r in db.runs && db.runs[r].status == Running && db.runs[r].repo == after.runs[r].repo)
    && (forall s :: s in after.steps && LeftBehind(after.steps[s]) ==>
          s in db.steps && LeftBehind(db.steps[s]) && db.steps[s].run == after.steps[s].run)
    && (forall r :: r in after.runs && r in db.runs ==> db.runs[r].repo == after.runs[r].repo)
    && (forall k :: k in after.targets && after.targets[k].owner.Some? ==> k in db.targets && db.targets[k].owner.Some?)
  }

  lemma QuieterTwice(a: Db, b: Db, c: Db)
    requires Quieter(a, b) && Quieter(b, c) && a.runs.Keys == b.runs.Keys
    ensures Quieter(a, c)
  {
  }

  lemma QuieterIsIdle(db: Db, after: Db, repo: RepoId)
    requires Idle(db, repo) && Quieter(db, after)
    requires forall s :: s in db.steps ==> db.steps[s].run in db.runs
    ensures Idle(after, repo)
  {
  }

  lemma FinishQuieter(db: Db, run: RunId, status: RunStatus)
    requires CanFinish(db, run, status)
    ensures Quieter(db, Finish(db, run, status)) && Finish(db, run, status).runs.Keys == db.runs.Keys
  {
  }

  lemma CancelQuieter(db: Db, run: RunId)
    requires CanCancel(db, run)
    ensures Quieter(db, Cancel(db, run))
  {
  }

  lemma {:induction false} FailLostQuieter(db: Db, lost: seq<RunId>)
    ensures Quieter(db, FailLost(db, lost)) && FailLost(db, lost).runs.Keys == db.runs.Keys
  {
    if lost != [] {
      var front, run := lost[..|lost| - 1], lost[|lost| - 1];
      FailLostQuieter(db, front);
      var mid := FailLost(db, front);
      if CanFinish(mid, run, Failed) {
        FinishQuieter(mid, run, Failed);
        QuieterTwice(db, mid, Finish(mid, run, Failed));
      }
    }
  }

  lemma StopQuieter(db: Db, run: RunId)
    ensures Quieter(db, ConfirmStopped(db, run))
  {
  }

  lemma RemovalQuieter(db: Db, run: RunId)
    ensures Quieter(db, db.(steps := RemoveContainers(db.steps, run)))
  {
  }

  lemma ReleaseRunQuieter(db: Db, run: RunId)
    ensures Quieter(db, ReleaseRun(db, run)) && ReleaseRun(db, run).runs.Keys == db.runs.Keys
  {
    if CanFinish(db, run, Failed) {
      var finished := Finish(db, run, Failed);
      var stopped := ConfirmStopped(finished, run);
      FinishQuieter(db, run, Failed);
      StopQuieter(finished, run);
      QuieterTwice(db, finished, stopped);
      RemovalQuieter(stopped, run);
      QuieterTwice(db, stopped, ReleaseRun(db, run));
    } else {
      RemovalQuieter(db, run);
    }
  }

  lemma {:induction false} ReleaseRunsQuieter(db: Db, runs: seq<RunId>)
    ensures Quieter(db, ReleaseRuns(db, runs)) && ReleaseRuns(db, runs).runs.Keys == db.runs.Keys
  {
    if runs != [] {
      var front, run := runs[..|runs| - 1], runs[|runs| - 1];
      ReleaseRunsQuieter(db, front);
      ReleaseRunQuieter(ReleaseRuns(db, front), run);
      QuieterTwice(db, ReleaseRuns(db, front), ReleaseRun(ReleaseRuns(db, front), run));
    }
  }

  lemma ReleaseWorkerQuieter(db: Db, worker: WorkerId, only: Option<RunId>, runs: seq<RunId>)
    ensures Quieter(db, ReleaseWorker(db, worker, only, runs))
  {
    ReleaseRunsQuieter(db, runs);
    QuieterTwice(db, ReleaseRuns(db, runs), ReleaseWorker(db, worker, only, runs));
  }

  lemma SupersedeQuieter(db: Db, repo: RepoId, ref: string, before: Option<nat>)
    ensures Quieter(db, Supersede(db, repo, ref, before)) && Supersede(db, repo, ref, before).runs.Keys == db.runs.Keys
  {
  }

  lemma CreateQuieter(db: Db, id: RunId, row: RunRow, plan: seq<NewStep>)
    requires Rows(db.runs, db.steps, db.counters, db.usedRuns, db.usedSteps) && CanCreate(db, id, row, plan)
    ensures Quieter(db, Create(db, id, row, plan))
  {
    StepsAdded(db.steps, id, row.status == Queued, plan);
    var added := Insert(db, id, row, plan);
    StepsPlanNothing(db.steps, id, row.status == Queued, plan);
    assert Quieter(db, added);
    SupersedeQuieter(added, row.repo, row.ref, Some(row.number));
    CreateQuieterStill(db, added, Create(db, id, row, plan));
  }

  lemma CreateQuieterStill(db: Db, added: Db, after: Db)
    requires Quieter(db, added) && Quieter(added, after) && after.runs.Keys == added.runs.Keys
    ensures Quieter(db, after)
  {
  }

  lemma {:induction false} StepsPlanNothing(steps: map<StepId, StepRow>, run: RunId, queued: bool, plan: seq<NewStep>)
    requires forall i :: 0 <= i < |plan| ==> plan[i].id !in steps
    ensures forall s :: s in AddSteps(steps, run, queued, plan) && s !in steps ==> !AddSteps(steps, run, queued, plan)[s].planned
    ensures forall s :: s in steps ==> s in AddSteps(steps, run, queued, plan) && AddSteps(steps, run, queued, plan)[s] == steps[s]
  {
    if plan != [] {
      StepsPlanNothing(steps, run, queued, plan[..|plan| - 1]);
    }
  }

  lemma ReceiptQuieter(db: Db, run: RunId, step: StepId, status: StepStatus, code: Option<int>, recovery: bool)
    requires CanFinishStep(db, run, step, status, code, recovery)
    ensures Quieter(db, FinishStep(db, run, step, status, code, recovery))
  {
  }

  /** Starting a step, planning its container and acquiring its target all need a running run. */
  lemma WorkIsElsewhere(db: Db, tx: Step, repo: RepoId)
    requires Idle(db, repo) && Enabled(db, tx)
    requires tx.StepStartedTx? || tx.BeginDeploymentTx? || tx.PlanContainerTx? || tx.ContainerRemovedTx? || tx.PruneRunTx?
    ensures Idle(Effect(db, tx), repo)
  {
  }

  lemma ClaimIsElsewhere(db: Db, run: RunId, worker: WorkerId, repo: RepoId)
    requires Idle(db, repo) && CanClaim(db, run) && db.runs[run].repo != repo
    ensures Idle(Claim(db, run, worker), repo)
  {
  }

  /** Only a claim wakes an idle repository. */
  lemma StaysIdle(db: Db, tx: Step, repo: RepoId)
    requires Inv(db) && Idle(db, repo) && Enabled(db, tx) && !tx.ClaimTx?
    ensures Idle(Effect(db, tx), repo)
  {
    if tx.StepStartedTx? || tx.BeginDeploymentTx? || tx.PlanContainerTx? || tx.ContainerRemovedTx? || tx.PruneRunTx? {
      WorkIsElsewhere(db, tx, repo);
    } else {
      NonWorkQuieter(db, tx);
      QuieterIsIdle(db, Effect(db, tx), repo);
    }
  }

  lemma NonWorkQuieter(db: Db, tx: Step)
    requires Rows(db.runs, db.steps, db.counters, db.usedRuns, db.usedSteps) && Enabled(db, tx)
    requires !tx.ClaimTx? && !tx.StepStartedTx? && !tx.BeginDeploymentTx? && !tx.PlanContainerTx? && !tx.ContainerRemovedTx?
             && !tx.PruneRunTx?
    ensures Quieter(db, Effect(db, tx))
  {
    match tx
    case CreateTx(id, row, plan) => CreateQuieter(db, id, row, plan);
    case CancelQueuedTx(repo, ref) => SupersedeQuieter(db, repo, ref, None);
    case StepFinishedTx(run, s, status, code) => ReceiptQuieter(db, run, s, status, code, false);
    case RecoverStepExitTx(run, s, exit) => ReceiptQuieter(db, run, s, ExitStatus(exit), Some(exit), true);
    case FinishTx(run, status) => FinishQuieter(db, run, status);
    case CancelTx(run) => CancelQuieter(db, run);
    case FailLostTx(lost) => FailLostQuieter(db, lost);
    case ConfirmStoppedTx(run) => StopQuieter(db, run);
    case ReleaseWorkerTx(worker, only, runs) => ReleaseWorkerQuieter(db, worker, only, runs);
    case ContainersRemovedTx(run) => RemovalQuieter(db, run);
  }
}
