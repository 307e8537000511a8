/** The promises of the run, step and ownership tables over whole histories. */
module CiTheorems {
  import opened Options
  import opened CiTables
  import opened CiSafety

  ghost predicate Initial(db: Db) {
    db.runs == map[] && db.steps == map[] && db.targets == map[] && db.log == [] && db.usedRuns == {} && db.usedSteps == {}
  }

  ghost predicate Possible(db: Db, steps: seq<Step>)
    decreases |steps|
  {
    steps == [] || (Enabled(db, steps[0]) && Possible(Effect(db, steps[0]), steps[1..]))
  }

  ghost function After(db: Db, steps: seq<Step>): Db
    requires Possible(db, steps)
    decreases |steps|
  {
    if steps == [] then db else After(Effect(db, steps[0]), steps[1..])
  }

  lemma {:induction false} AlwaysInv(db: Db, steps: seq<Step>)
    requires Inv(db) && Possible(db, steps)
    ensures Inv(After(db, steps))
    decreases |steps|
  {
    if steps != [] {
      Keeps(db, steps[0]);
      AlwaysInv(Effect(db, steps[0]), steps[1..]);
    }
  }

  /** The tables after some history of transactions from empty ones. */
  ghost predicate Reachable(db: Db) {
    exists start: Db, steps: seq<Step> :: Reaches(start, steps, db)
  }

  ghost predicate Reaches(start: Db, steps: seq<Step>, db: Db) {
    Initial(start) && Possible(start, steps) && db == After(start, steps)
  }

  lemma Begin(db: Db)
    requires Initial(db)
    ensures Reachable(db)
  {
    assert Reaches(db, [], db);
  }

  lemma {:induction false} AfterOneMore(db: Db, steps: seq<Step>, tx: Step)
    requires Possible(db, steps) && Enabled(After(db, steps), tx)
    ensures Possible(db, steps + [tx]) && After(db, steps + [tx]) == Effect(After(db, steps), tx)
    decreases |steps|
  {
    var all := steps + [tx];
    if steps == [] {
      assert all[1..] == [];
    } else {
      assert all[1..] == steps[1..] + [tx];
      AfterOneMore(Effect(db, steps[0]), steps[1..], tx);
    }
  }

  lemma ReachableInv(db: Db)
    requires Reachable(db)
    ensures Inv(db)
  {
    var start, steps :| Reaches(start, steps, db);
    AlwaysInv(start, steps);
  }

  /** Over every history: one deployment per step; each ownership of a target that ends in a
      deployment has a higher generation than the last; and a push-triggered run never
      deploys over a run with a higher number. */
  lemma DeploymentsNeverGoBack(db: Db, steps: seq<Step>, i: nat, j: nat)
    requires Initial(db) && Possible(db, steps) && i < j < |After(db, steps).log|
    ensures var log := After(db, steps).log;
            && log[i].step != log[j].step
            && (log[i].key == log[j].key ==> log[i].generation < log[j].generation)
            && (log[i].key == log[j].key && log[j].trigger == ByPush ==> log[i].number <= log[j].number)
  {
    AlwaysInv(db, steps);
  }

  /** No successful deployment is lost: every deploy step that passed has its deployment on
      record, and only one. */
  lemma NoDeploymentIsLost(db: Db, steps: seq<Step>, step: StepId) returns (i: nat)
    requires Initial(db) && Possible(db, steps) && step in After(db, steps).steps
    requires After(db, steps).steps[step].deploy && After(db, steps).steps[step].status == StepPassed
    ensures var t := After(db, steps);
            && i < |t.log| && t.log[i].step == step && t.log[i].run == t.steps[step].run
            && (forall j :: 0 <= j < |t.log| && t.log[j].step == step ==> j == i)
  {
    AlwaysInv(db, steps);
    i := Recorded(After(db, steps), step);
  }

  lemma Recorded(db: Db, step: StepId) returns (i: nat)
    requires NothingLost(db.log, db.steps) && InOrder(db.log) && step in db.steps
    requires db.steps[step].deploy && db.steps[step].status == StepPassed
    ensures i < |db.log| && db.log[i].step == step && db.log[i].run == db.steps[step].run
    ensures forall j :: 0 <= j < |db.log| && db.log[j].step == step ==> j == i
  {
    i :| 0 <= i < |db.log| && db.log[i].step == step && db.log[i].run == db.steps[step].run;
  }

  /** An ended run has no pending or running step. */
  ghost predicate StepsSettled(db: Db) {
    forall s :: s in db.steps && db.steps[s].run in db.runs && Ended(db.runs[db.steps[s].run].status) ==>
      db.steps[s].status != StepPending && db.steps[s].status != StepRunning
  }

  /** A ref has at most one queued run, its highest-numbered one. */
  ghost predicate OneQueuedPerRef(db: Db) {
    forall q, r :: q in db.runs && r in db.runs && q != r && SameRef(db.runs[q], db.runs[r]) && db.runs[q].status == Queued ==>
      db.runs[r].status != Queued && db.runs[r].number < db.runs[q].number
  }

  lemma SettledBy(db: Db)
    requires Fitting(db.runs, db.steps) && QueuedIsLatest(db.runs)
    ensures StepsSettled(db) && OneQueuedPerRef(db)
  {
    forall q, r | q in db.runs && r in db.runs && q != r && SameRef(db.runs[q], db.runs[r]) && db.runs[q].status == Queued
      ensures db.runs[r].status != Queued && db.runs[r].number < db.runs[q].number
    {
      assert SameRef(db.runs[r], db.runs[q]);
    }
  }

  lemma RunsAreSettled(db: Db, steps: seq<Step>)
    requires Initial(db) && Possible(db, steps)
    ensures StepsSettled(After(db, steps)) && OneQueuedPerRef(After(db, steps))
  {
    AlwaysInv(db, steps);
    SettledBy(After(db, steps));
  }

  /** A target's owner is a deploy step of a run for that target, without an exit code, and
      no other step of the target holds its generation. */
  ghost predicate OwnedByOne(db: Db, key: TargetKey) {
    key in db.targets && db.targets[key].owner.Some? ==>
      var o := db.targets[key].owner.value;
      && o.step in db.steps && db.steps[o.step].run == o.run && db.steps[o.step].deploy && db.steps[o.step].code.None?
      && o.run in db.runs && KeyOf(db.runs[o.run]) == key
      && (forall s :: s in db.steps && s != o.step && db.steps[s].run in db.runs && KeyOf(db.runs[db.steps[s].run]) == key ==>
            db.steps[s].generation != Some(db.targets[key].generation))
  }

  lemma OwnedBy(db: Db, key: TargetKey)
    requires Fitting(db.runs, db.steps) && Owned(db.runs, db.steps, db.targets) && Generations(db.runs, db.steps, db.targets)
    ensures OwnedByOne(db, key)
  {
    if key in db.targets && db.targets[key].owner.Some? {
      var o := db.targets[key].owner.value;
      assert Legitimate(db.runs, db.steps, key, db.targets[key]);
      assert Fits(db.steps[o.step], db.runs[o.run].status);
    }
  }

  lemma OwnerIsUnique(db: Db, steps: seq<Step>, key: TargetKey)
    requires Initial(db) && Possible(db, steps)
    ensures OwnedByOne(After(db, steps), key)
  {
    AlwaysInv(db, steps);
    OwnedBy(After(db, steps), key);
  }

  // ----- what one transaction may change -----

  /** queued to running to ended, or queued to ended; ended is final. */
  ghost predicate LegalMove(before: RunStatus, after: RunStatus) {
    before == after || before == Queued || (before == Running && Ended(after))
  }

  /** No run goes back and no recorded exit code changes. */
  ghost predicate Forward(db: Db, after: Db) {
    && (forall r :: r in db.runs && r in after.runs ==> LegalMove(db.runs[r].status, after.runs[r].status))
    && (forall s :: s in db.steps && s in after.steps && db.steps[s].code.Some? ==>
          after.steps[s].code == db.steps[s].code && after.steps[s].status == db.steps[s].status)
  }

  lemma FinishIsForward(db: Db, run: RunId, status: RunStatus)
    requires Fitting(db.runs, db.steps) && CanFinish(db, run, status)
    ensures Forward(db, Finish(db, run, status))
    ensures Finish(db, run, status).runs.Keys == db.runs.Keys && Finish(db, run, status).steps.Keys == db.steps.Keys
  {
    forall s | s in db.steps && db.steps[s].code.Some? ensures Finish(db, run, status).steps[s] == db.steps[s] {
      if db.steps[s].run == run {
        assert Fits(db.steps[s], db.runs[run].status);
      }
    }
  }

  /** Runs and steps move forward; targets and the log stay. */
  ghost predicate FailedForward(db: Db, after: Db) {
    && Forward(db, after) && after.runs.Keys == db.runs.Keys && after.steps.Keys == db.steps.Keys
    && after.targets == db.targets && after.log == db.log
  }

  lemma FailedTwice(a: Db, b: Db, run: RunId)
    requires FailedForward(a, b) && Fitting(b.runs, b.steps) && CanFinish(b, run, Failed)
    ensures FailedForward(a, Finish(b, run, Failed))
  {
    FinishIsForward(b, run, Failed);
  }

  lemma {:induction false} FailLostIsForward(db: Db, lost: seq<RunId>)
    requires Inv(db)
    ensures FailedForward(db, FailLost(db, lost))
  {
    if lost != [] {
      var front, run := lost[..|lost| - 1], lost[|lost| - 1];
      FailLostIsForward(db, front);
      KeepsFailLost(db, front);
      var mid := FailLost(db, front);
      if CanFinish(mid, run, Failed) {
        FailedTwice(db, mid, run);
      }
    }
  }

  /** Owners disappear only if their run is in `gone`; nothing else about a target changes. */
  ghost predicate Dropped(before: map<TargetKey, TargetRow>, after: map<TargetKey, TargetRow>, gone: set<RunId>) {
    && after.Keys == before.Keys
    && (forall k :: k in before ==>
          || after[k] == before[k]
          || (before[k].owner.Some? && before[k].owner.value.run in gone && after[k] == before[k].(owner := None)))
  }

  ghost predicate Released(db: Db, after: Db, gone: set<RunId>) {
    && Forward(db, after) && after.runs.Keys == db.runs.Keys && after.steps.Keys == db.steps.Keys && after.log == db.log
    && Dropped(db.targets, after.targets, gone)
  }

  lemma ReleasedTwice(a: Db, b: Db, c: Db, gone: set<RunId>, also: set<RunId>)
    requires Released(a, b, gone) && Released(b, c, also)
    ensures Released(a, c, gone + also)
  {
  }

  ghost function RunSet(runs: seq<RunId>): set<RunId> {
    set r | r in runs
  }

  lemma RunSetSplit(runs: seq<RunId>)
    requires runs != []
    ensures RunSet(runs) == RunSet(runs[..|runs| - 1]) + {runs[|runs| - 1]}
  {
    assert runs == runs[..|runs| - 1] + [runs[|runs| - 1]];
  }

  lemma ReleasedNone(db: Db)
    ensures Released(db, db, {})
  {
  }

  lemma ReleasedOneMore(db: Db, mid: Db, run: RunId, gone: set<RunId>, after: Db, all: set<RunId>)
    requires Inv(mid) && Released(db, mid, gone) && after == ReleaseRun(mid, run) && all == gone + {run}
    ensures Released(db, after, all)
  {
    ReleaseRunIsForward(mid, run);
    ReleasedTwice(db, mid, ReleaseRun(mid, run), gone, {run});
  }

  lemma {:induction false} ReleaseRunsIsForward(db: Db, runs: seq<RunId>)
    requires Inv(db)
    ensures Released(db, ReleaseRuns(db, runs), RunSet(runs))
  {
    if runs == [] {
      ReleasedNone(db);
    } else {
      var front, run := runs[..|runs| - 1], runs[|runs| - 1];
      ReleaseRunsIsForward(db, front);
      KeepsReleaseRuns(db, front);
      RunSetSplit(runs);
      ReleasedOneMore(db, ReleaseRuns(db, front), run, RunSet(front), ReleaseRuns(db, runs), RunSet(runs));
    }
  }

  lemma ReleaseRunIsForward(db: Db, run: RunId)
    requires Inv(db)
    ensures Released(db, ReleaseRun(db, run), {run})
  {
    if CanFinish(db, run, Failed) {
      var finished := Finish(db, run, Failed);
      var stopped := ConfirmStopped(finished, run);
      FinishIsForward(db, run, Failed);
      KeepsFinish(db, run, Failed);
      StoppedIsReleased(finished, run);
      ReleasedTwice(db, finished, stopped, {}, {run});
      RemovalIsReleased(stopped, run);
      ReleasedTwice(db, stopped, ReleaseRun(db, run), {run}, {});
      assert {} + {run} + {} == {run};
    } else {
      RemovalIsReleased(db, run);
      assert Released(db, ReleaseRun(db, run), {});
    }
  }

  lemma StoppedIsReleased(db: Db, run: RunId)
    requires Fitting(db.runs, db.steps) && forall s :: s in db.steps ==> db.steps[s].run in db.runs
    ensures Released(db, ConfirmStopped(db, run), {run})
  {
    forall s | s in db.steps && db.steps[s].code.Some? ensures ConfirmStopped(db, run).steps[s] == db.steps[s] {
      assert Fits(db.steps[s], db.runs[db.steps[s].run].status);
    }
  }

  lemma RemovalIsReleased(db: Db, run: RunId)
    ensures Released(db, db.(steps := RemoveContainers(db.steps, run)), {})
  {
  }

  ghost function RunsOf(db: Db, worker: WorkerId): set<RunId> {
    set r | r in db.runs && db.runs[r].worker == Some(worker)
  }

  /** Releasing a lost worker frees targets of that worker's runs only. */
  lemma ReleaseWorkerIsForward(db: Db, worker: WorkerId, only: Option<RunId>, runs: seq<RunId>)
    requires Inv(db) && CanReleaseWorker(db, worker, only, runs)
    ensures Released(db, ReleaseWorker(db, worker, only, runs), RunsOf(db, worker))
  {
    var mid := ReleaseRuns(db, runs);
    ReleaseRunsIsForward(db, runs);
    assert RunSet(runs) <= RunsOf(db, worker);
    OwnersReleased(db, mid, worker, only);
  }

  lemma OwnersReleased(db: Db, mid: Db, worker: WorkerId, only: Option<RunId>)
    requires Forward(db, mid) && mid.runs.Keys == db.runs.Keys && mid.steps.Keys == db.steps.Keys && mid.log == db.log
    requires exists gone :: gone <= RunsOf(db, worker) && Dropped(db.targets, mid.targets, gone)
    ensures Released(db, mid.(targets := ReleaseOwners(mid.targets,
              OfWorker(db.runs, worker, only))), RunsOf(db, worker))
  {
  }

  lemma CreateIsForward(db: Db, id: RunId, row: RunRow, plan: seq<NewStep>)
    requires Inv(db) && CanCreate(db, id, row, plan)
    ensures Forward(db, Create(db, id, row, plan))
    ensures Create(db, id, row, plan).targets == db.targets && Create(db, id, row, plan).log == db.log
  {
    StepsAdded(db.steps, id, row.status == Queued, plan);
    var added := Insert(db, id, row, plan);
    Inserted(db, id, row, plan);
    SupersedeIsForward(added, row.repo, row.ref, Some(row.number));
  }

  lemma SupersedeIsForward(db: Db, repo: RepoId, ref: string, before: Option<nat>)
    requires Fitting(db.runs, db.steps)
    ensures Forward(db, Supersede(db, repo, ref, before))
  {
    var t := Supersede(db, repo, ref, before);
    forall s | s in db.steps && db.steps[s].code.Some? ensures t.steps[s] == db.steps[s] {
      if db.steps[s].run in db.runs {
        assert Fits(db.steps[s], db.runs[db.steps[s].run].status);
      }
    }
  }

  lemma CancelIsForward(db: Db, run: RunId)
    requires Fitting(db.runs, db.steps) && CanCancel(db, run)
    ensures Forward(db, Cancel(db, run))
  {
    forall s | s in db.steps && db.steps[s].code.Some? ensures Cancel(db, run).steps[s] == db.steps[s] {
      if db.steps[s].run == run {
        assert Fits(db.steps[s], db.runs[run].status);
      }
    }
  }

  lemma WorkIsForward(db: Db, step: Step)
    requires Fitting(db.runs, db.steps) && Enabled(db, step) && forall s :: s in db.steps ==> db.steps[s].run in db.runs
    requires step.StepStartedTx? || step.BeginDeploymentTx? || step.PlanContainerTx? || step.ContainerRemovedTx?
    ensures Forward(db, Effect(db, step))
  {
    var t := Effect(db, step);
    assert t.runs == db.runs;
  }

  lemma ClaimOrPruneIsForward(db: Db, step: Step)
    requires Enabled(db, step) && (step.ClaimTx? || step.PruneRunTx?)
    ensures Forward(db, Effect(db, step))
  {
  }

  /** Runs only move forward and a recorded exit code never changes, not even in recovery. */
  lemma EveryStepIsForward(db: Db, steps: seq<Step>, step: Step)
    requires Initial(db) && Possible(db, steps) && Enabled(After(db, steps), step)
    ensures Forward(After(db, steps), Effect(After(db, steps), step))
  {
    AlwaysInv(db, steps);
    StepIsForward(After(db, steps), step);
  }

  lemma StepIsForward(db: Db, step: Step)
    requires Inv(db) && Enabled(db, step)
    ensures Forward(db, Effect(db, step))
  {
    if step.StepFinishedTx? {
      ReceiptIsForward(db, step.run, step.step, step.verdict, step.code, false);
    } else if step.RecoverStepExitTx? {
      ReceiptIsForward(db, step.run, step.step, ExitStatus(step.exit), Some(step.exit), true);
    } else if step.ClaimTx? || step.PruneRunTx? {
      ClaimOrPruneIsForward(db, step);
    } else if step.StepStartedTx? || step.BeginDeploymentTx? || step.PlanContainerTx? || step.ContainerRemovedTx? {
      WorkIsForward(db, step);
    } else {
      SettlingIsForward(db, step);
    }
  }

  lemma SettlingIsForward(db: Db, step: Step)
    requires Inv(db) && Enabled(db, step)
    requires step.CreateTx? || step.CancelQueuedTx? || step.FinishTx? || step.CancelTx? || step.FailLostTx? || step.ConfirmStoppedTx?
             || step.ReleaseWorkerTx? || step.ContainersRemovedTx?
    ensures Forward(db, Effect(db, step))
  {
    if step.CreateTx? {
      CreateIsForward(db, step.id, step.row, step.plan);
    } else if step.CancelQueuedTx? {
      SupersedeIsForward(db, step.repo, step.ref, None);
    } else if step.FinishTx? {
      FinishIsForward(db, step.run, step.status);
    } else if step.CancelTx? {
      CancelIsForward(db, step.run);
    } else if step.FailLostTx? {
      FailLostIsForward(db, step.lost);
    } else if step.ConfirmStoppedTx? {
      StoppedIsReleased(db, step.run);
    } else if step.ReleaseWorkerTx? {
      ReleaseWorkerIsForward(db, step.worker, step.only, step.runs);
    } else {
      RemovalIsReleased(db, step.run);
    }
  }

  lemma ReceiptIsForward(db: Db, run: RunId, step: StepId, status: StepStatus, code: Option<int>, recovery: bool)
    requires Fitting(db.runs, db.steps) && CanFinishStep(db, run, step, status, code, recovery)
    ensures Forward(db, FinishStep(db, run, step, status, code, recovery))
  {
    assert Fits(db.steps[step], db.runs[run].status);
  }

  // ----- ownership -----

  /** The transactions that may take a target from its owner: the owner's own receipt,
      confirmation that its run has stopped, and the release of its run's worker. */
  ghost predicate MayEnd(db: Db, step: Step, owner: Owner) {
    match step
    case StepFinishedTx(run, s, _, _) => Owner(run, s) == owner
    case RecoverStepExitTx(run, s, _) => Owner(run, s) == owner
    case ConfirmStoppedTx(run) => run == owner.run
    case ReleaseWorkerTx(worker, _, _) => owner.run in db.runs && db.runs[owner.run].worker == Some(worker)
    case _ => false
  }

  /** A target keeps its owner and generation, or loses its owner to a transaction that may
      take it, or, unowned, gains the deploying step under the next generation. */
  ghost predicate TargetMoves(db: Db, step: Step, before: TargetRow, after: TargetRow) {
    && after.latest >= before.latest
    && (|| (after.owner == before.owner && after.generation == before.generation)
        || (before.owner.Some? && after.owner.None? && after.generation == before.generation && MayEnd(db, step, before.owner.value))
        || (before.owner.None? && after.owner.Some? && after.generation == before.generation + 1
            && step == BeginDeploymentTx(after.owner.value.run, after.owner.value.step)))
  }

  ghost predicate OwnershipMoves(db: Db, step: Step, after: Db) {
    && db.targets.Keys <= after.targets.Keys
    && (forall k :: k in after.targets ==> TargetMoves(db, step, TargetOf(db, k), after.targets[k]))
  }

  lemma DroppedMoves(db: Db, step: Step, after: Db, gone: set<RunId>)
    requires Dropped(db.targets, after.targets, gone)
    requires forall o: Owner :: o.run in gone ==> MayEnd(db, step, o)
    ensures OwnershipMoves(db, step, after)
  {
  }

  lemma AcquireMoves(db: Db, run: RunId, step: StepId)
    requires Owned(db.runs, db.steps, db.targets) && CanDeploy(db, run, step)
    ensures OwnershipMoves(db, BeginDeploymentTx(run, step), Acquire(db, run, step))
  {
  }

  lemma ReceiptMoves(db: Db, tx: Step, run: RunId, step: StepId, status: StepStatus, code: Option<int>, recovery: bool)
    requires CanFinishStep(db, run, step, status, code, recovery) && MayEnd(db, tx, Owner(run, step))
    ensures OwnershipMoves(db, tx, FinishStep(db, run, step, status, code, recovery))
  {
  }

  lemma OwnershipStep(db: Db, step: Step)
    requires Inv(db) && Enabled(db, step)
    ensures OwnershipMoves(db, step, Effect(db, step))
  {
    if step.BeginDeploymentTx? {
      AcquireMoves(db, step.run, step.step);
    } else if step.StepFinishedTx? {
      ReceiptMoves(db, step, step.run, step.step, step.verdict, step.code, false);
    } else if step.RecoverStepExitTx? {
      ReceiptMoves(db, step, step.run, step.step, ExitStatus(step.exit), Some(step.exit), true);
    } else if step.ReleaseWorkerTx? || step.FailLostTx? || step.ConfirmStoppedTx? || step.CreateTx? {
      ReleaseStep(db, step);
    } else {
      SameTargets(db, step);
      DroppedMoves(db, step, Effect(db, step), {});
    }
  }

  lemma SameTargets(db: Db, step: Step)
    requires Enabled(db, step)
    requires step.CancelQueuedTx? || step.ClaimTx? || step.StepStartedTx? || step.FinishTx? || step.CancelTx? || step.PlanContainerTx?
             || step.ContainerRemovedTx? || step.ContainersRemovedTx? || step.PruneRunTx?
    ensures Effect(db, step).targets == db.targets && Effect(db, step).log == db.log
  {
  }

  lemma ReleaseStep(db: Db, step: Step)
    requires Inv(db) && Enabled(db, step)
    requires step.ReleaseWorkerTx? || step.FailLostTx? || step.ConfirmStoppedTx? || step.CreateTx?
    ensures OwnershipMoves(db, step, Effect(db, step))
  {
    match step
    case ConfirmStoppedTx(run) => StoppedIsReleased(db, run); DroppedMoves(db, step, Effect(db, step), {run});
    case ReleaseWorkerTx(worker, only, runs) =>
      ReleaseWorkerIsForward(db, worker, only, runs);
      DroppedMoves(db, step, Effect(db, step), RunsOf(db, worker));
    case CreateTx(id, row, plan) => CreateIsForward(db, id, row, plan); DroppedMoves(db, step, Effect(db, step), {});
    case FailLostTx(lost) => FailLostIsForward(db, lost); DroppedMoves(db, step, Effect(db, step), {});
  }

  /** In every history generations only grow, a new ownership takes the next generation, and
      no transaction of another step, nor failing a lost run, takes a target away. */
  lemma OwnershipIsGuarded(db: Db, steps: seq<Step>, step: Step)
    requires Initial(db) && Possible(db, steps) && Enabled(After(db, steps), step)
    ensures OwnershipMoves(After(db, steps), step, Effect(After(db, steps), step))
  {
    AlwaysInv(db, steps);
    OwnershipStep(After(db, steps), step);
  }

  /** A deployment is recorded only by the receipt of the step that owns the target at the
      generation it acquired and exited 0; the same transaction ends the ownership. */
  ghost predicate RecordedByOwner(db: Db, step: Step, after: Db) {
    || after.log == db.log
    || (|after.log| == |db.log| + 1 && after.log[..|db.log|] == db.log
        && var d := after.log[|db.log|];
        && (step == RecoverStepExitTx(d.run, d.step, 0) || step == StepFinishedTx(d.run, d.step, StepPassed, Some(0)))
        && d.step in db.steps && db.steps[d.step].run == d.run && db.steps[d.step].deploy
        && d.key in db.targets && db.targets[d.key].owner == Some(Owner(d.run, d.step))
        && db.targets[d.key].generation == d.generation && db.steps[d.step].generation == Some(d.generation)
        && d.step in after.steps && after.steps[d.step].code == Some(0) && after.steps[d.step].status == StepPassed
        && d.key in after.targets && after.targets[d.key].owner.None?)
  }

  lemma ReceiptRecords(db: Db, tx: Step, run: RunId, step: StepId, status: StepStatus, code: Option<int>, recovery: bool)
    requires CanFinishStep(db, run, step, status, code, recovery)
    requires tx == StepFinishedTx(run, step, status, code) || (code.Some? && status == ExitStatus(code.value) && tx == RecoverStepExitTx(run, step, code.value))
    ensures RecordedByOwner(db, tx, FinishStep(db, run, step, status, code, recovery))
  {
    var t := FinishStep(db, run, step, status, code, recovery);
    if Deploys(db, step, status) {
      assert t.log[..|db.log|] == db.log;
    }
  }

  lemma DeploymentStep(db: Db, step: Step)
    requires Inv(db) && Enabled(db, step)
    ensures RecordedByOwner(db, step, Effect(db, step))
  {
    if step.StepFinishedTx? {
      ReceiptRecords(db, step, step.run, step.step, step.verdict, step.code, false);
    } else if step.RecoverStepExitTx? {
      ReceiptRecords(db, step, step.run, step.step, ExitStatus(step.exit), Some(step.exit), true);
    } else if step.FailLostTx? {
      FailLostIsForward(db, step.lost);
    } else if step.ReleaseWorkerTx? {
      ReleaseWorkerIsForward(db, step.worker, step.only, step.runs);
    } else if step.CreateTx? {
      CreateIsForward(db, step.id, step.row, step.plan);
    } else if step.ConfirmStoppedTx? {
      ConfirmStoppedEffect(db, step.run);
    } else if !step.BeginDeploymentTx? {
      SameTargets(db, step);
    }
  }

  lemma DeploymentsComeFromOwners(db: Db, steps: seq<Step>, step: Step)
    requires Initial(db) && Possible(db, steps) && Enabled(After(db, steps), step)
    ensures RecordedByOwner(After(db, steps), step, Effect(After(db, steps), step))
  {
    AlwaysInv(db, steps);
    DeploymentStep(After(db, steps), step);
  }
}
