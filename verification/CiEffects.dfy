/** What every CI transaction does to the tables, row by row and field by field. */
module CiEffects {
  import opened Options
  import opened CiTables
  import opened CiSafety
  import opened CiTheorems

  // ----- how tables may differ -----

  ghost predicate SameRunsBut(db: Db, t: Db, run: RunId) {
    t.runs.Keys == db.runs.Keys && forall r :: r in db.runs && r != run ==> t.runs[r] == db.runs[r]
  }

  ghost predicate SameStepsBut(db: Db, t: Db, step: StepId) {
    t.steps.Keys == db.steps.Keys && forall s :: s in db.steps && s != step ==> t.steps[s] == db.steps[s]
  }

  ghost predicate SameTargetsBut(db: Db, t: Db, key: TargetKey) {
    && db.targets.Keys <= t.targets.Keys <= db.targets.Keys + {key}
    && (forall k :: k in db.targets && k != key ==> t.targets[k] == db.targets[k])
  }

  /** Counters, recorded deployments and identifiers given out stay. */
  ghost predicate SameBooks(db: Db, t: Db) {
    t.counters == db.counters && t.log == db.log && t.usedRuns == db.usedRuns && t.usedSteps == db.usedSteps
  }

  /** Of the runs in `ended`, a running step takes one status and a pending step another;
      every other step, and everything else of a step, stays. */
  ghost predicate OpenStepsBecome(db: Db, t: Db, ended: set<RunId>, running: StepStatus, pending: StepStatus) {
    && t.steps.Keys == db.steps.Keys
    && (forall s :: s in db.steps && db.steps[s].run in ended && db.steps[s].status == StepRunning ==>
          t.steps[s] == db.steps[s].(status := running))
    && (forall s :: s in db.steps && db.steps[s].run in ended && db.steps[s].status == StepPending ==>
          t.steps[s] == db.steps[s].(status := pending))
    && (forall s :: s in db.steps
                    && (db.steps[s].run !in ended || (db.steps[s].status != StepRunning && db.steps[s].status != StepPending)) ==>
          t.steps[s] == db.steps[s])
  }

  /** The runs in `ended` take the status; every other run, and everything else of a run, stays. */
  ghost predicate RunsBecome(db: Db, t: Db, ended: set<RunId>, status: RunStatus) {
    && t.runs.Keys == db.runs.Keys
    && (forall r :: r in db.runs && r in ended ==> t.runs[r] == db.runs[r].(status := status))
    && (forall r :: r in db.runs && r !in ended ==> t.runs[r] == db.runs[r])
  }

  // ----- new and superseded runs -----

  /** Queued runs of the ref, older than the given number if one is given. */
  ghost function QueuedOf(db: Db, repo: RepoId, ref: string, before: Option<nat>): set<RunId> {
    set r | r in db.runs && db.runs[r].repo == repo && db.runs[r].ref == ref && db.runs[r].status == Queued
            && (before.None? || db.runs[r].number < before.value)
  }

  ghost predicate NewStepRow(step: StepRow, run: RunId, queued: bool, p: NewStep) {
    && step.run == run && step.deploy == p.deploy
    && step.code.None? && step.generation.None? && !step.planned && !step.removed
    && (queued && p.applies ==> step.status == StepPending)
    && (!(queued && p.applies) ==> step.status == StepSkipped)
  }

  /** The steps of the superseded runs that were pending are cancelled; other old steps stay. */
  ghost predicate PendingCancelled(db: Db, t: Db, ended: set<RunId>) {
    && (forall s :: s in db.steps ==> s in t.steps)
    && (forall s :: s in db.steps && db.steps[s].run in ended && db.steps[s].status == StepPending ==>
          t.steps[s] == db.steps[s].(status := StepCancelled))
    && (forall s :: s in db.steps && (db.steps[s].run !in ended || db.steps[s].status != StepPending) ==> t.steps[s] == db.steps[s])
  }

  /** A new run under the next number with one step per entry of the plan, pending exactly if
      the run is queued and the entry applies; older queued runs of the ref are cancelled. */
  ghost predicate RunCreated(db: Db, t: Db, id: RunId, row: RunRow, plan: seq<NewStep>) {
    var ended := QueuedOf(db, row.repo, row.ref, Some(row.number));
    && t.runs.Keys == db.runs.Keys + {id} && id !in db.runs && t.runs[id] == row
    && (forall r :: r in db.runs && r in ended ==> t.runs[r] == db.runs[r].(status := Cancelled))
    && (forall r :: r in db.runs && r !in ended ==> t.runs[r] == db.runs[r])
    && (forall s :: s in t.steps ==> s in db.steps || exists i :: 0 <= i < |plan| && plan[i].id == s)
    && (forall i :: 0 <= i < |plan| ==> plan[i].id in t.steps && NewStepRow(t.steps[plan[i].id], id, row.status == Queued, plan[i]))
    && PendingCancelled(db, t, ended)
    && row.repo in db.counters && row.number == db.counters[row.repo] + 1 && t.counters == db.counters[row.repo := row.number]
    && t.targets == db.targets && t.log == db.log
  }

  lemma {:induction false} PlanRows(steps: map<StepId, StepRow>, run: RunId, queued: bool, plan: seq<NewStep>)
    requires forall i, j :: 0 <= i < j < |plan| ==> plan[i].id != plan[j].id
    ensures forall i :: 0 <= i < |plan| ==>
      plan[i].id in AddSteps(steps, run, queued, plan) && NewStepRow(AddSteps(steps, run, queued, plan)[plan[i].id], run, queued, plan[i])
    ensures forall s :: s in AddSteps(steps, run, queued, plan) ==> s in steps || exists i :: 0 <= i < |plan| && plan[i].id == s
  {
    if plan != [] {
      var n := |plan| - 1;
      PlanRows(steps, run, queued, plan[..n]);
      forall s | s in AddSteps(steps, run, queued, plan) && s !in steps ensures exists i :: 0 <= i < |plan| && plan[i].id == s {
        if s == plan[n].id {
          assert plan[n].id == s;
        } else {
          var i :| 0 <= i < n && plan[..n][i].id == s;
          assert plan[i].id == s;
        }
      }
      forall i | 0 <= i < |plan|
        ensures plan[i].id in AddSteps(steps, run, queued, plan)
        ensures NewStepRow(AddSteps(steps, run, queued, plan)[plan[i].id], run, queued, plan[i])
      {
        if i < n {
          assert plan[..n][i] == plan[i];
        }
      }
    }
  }

  lemma CreateMeans(db: Db, id: RunId, row: RunRow, plan: seq<NewStep>)
    requires Inv(db) && CanCreate(db, id, row, plan)
    ensures RunCreated(db, Create(db, id, row, plan), id, row, plan)
  {
    var added := Insert(db, id, row, plan);
    assert forall i :: 0 <= i < |plan| ==> plan[i].id !in db.steps;
    StepsAdded(db.steps, id, row.status == Queued, plan);
    PlanRows(db.steps, id, row.status == Queued, plan);
    SupersedeMeansRuns(added, row.repo, row.ref, Some(row.number));
    SupersedeMeansSteps(added, row.repo, row.ref, Some(row.number));
    CreatedRuns(db, id, row, plan);
    CreatedSteps(db, id, row, plan);
  }

  lemma SupersedeMeansRuns(db: Db, repo: RepoId, ref: string, before: Option<nat>)
    ensures RunsBecome(db, Supersede(db, repo, ref, before), QueuedOf(db, repo, ref, before), Cancelled)
  {
  }

  lemma SupersedeMeansSteps(db: Db, repo: RepoId, ref: string, before: Option<nat>)
    ensures PendingCancelled(db, Supersede(db, repo, ref, before), QueuedOf(db, repo, ref, before))
    ensures Supersede(db, repo, ref, before).steps.Keys == db.steps.Keys
  {
  }

  lemma CreatedRuns(db: Db, id: RunId, row: RunRow, plan: seq<NewStep>)
    requires id !in db.runs
    requires RunsBecome(Insert(db, id, row, plan), Create(db, id, row, plan), QueuedOf(Insert(db, id, row, plan), row.repo, row.ref, Some(row.number)), Cancelled)
    ensures var t, ended := Create(db, id, row, plan), QueuedOf(db, row.repo, row.ref, Some(row.number));
            && t.runs.Keys == db.runs.Keys + {id} && t.runs[id] == row
            && (forall r :: r in db.runs && r in ended ==> t.runs[r] == db.runs[r].(status := Cancelled))
            && (forall r :: r in db.runs && r !in ended ==> t.runs[r] == db.runs[r])
    ensures QueuedOf(Insert(db, id, row, plan), row.repo, row.ref, Some(row.number)) == QueuedOf(db, row.repo, row.ref, Some(row.number))
  {
  }

  lemma CreatedSteps(db: Db, id: RunId, row: RunRow, plan: seq<NewStep>)
    requires id !in db.runs && forall s :: s in db.steps ==> db.steps[s].run in db.runs
    requires forall i :: 0 <= i < |plan| ==> plan[i].id !in db.steps
    requires var added, ended := Insert(db, id, row, plan), QueuedOf(db, row.repo, row.ref, Some(row.number));
             && PendingCancelled(added, Create(db, id, row, plan), ended)
             && (forall s :: s in db.steps ==> s in added.steps && added.steps[s] == db.steps[s])
             && (forall i :: 0 <= i < |plan| ==> plan[i].id in added.steps && NewStepRow(added.steps[plan[i].id], id, row.status == Queued, plan[i]))
    ensures var t, ended := Create(db, id, row, plan), QueuedOf(db, row.repo, row.ref, Some(row.number));
            && PendingCancelled(db, t, ended)
            && (forall i :: 0 <= i < |plan| ==> plan[i].id in t.steps && NewStepRow(t.steps[plan[i].id], id, row.status == Queued, plan[i]))
  {
  }

  ghost predicate QueueCleared(db: Db, t: Db, repo: RepoId, ref: string) {
    var ended := QueuedOf(db, repo, ref, None);
    && RunsBecome(db, t, ended, Cancelled) && PendingCancelled(db, t, ended) && t.steps.Keys == db.steps.Keys
    && t.targets == db.targets && SameBooks(db, t)
  }

  lemma CancelQueuedMeans(db: Db, repo: RepoId, ref: string)
    ensures QueueCleared(db, Supersede(db, repo, ref, None), repo, ref)
  {
    SupersedeMeansRuns(db, repo, ref, None);
    SupersedeMeansSteps(db, repo, ref, None);
  }

  // ----- execution -----

  ghost predicate RunClaimed(db: Db, t: Db, run: RunId, worker: WorkerId) {
    && run in db.runs && db.runs[run].status == Queued
    && SameRunsBut(db, t, run) && t.runs[run] == db.runs[run].(status := Running, worker := Some(worker))
    && t.steps == db.steps && t.targets == db.targets && SameBooks(db, t)
  }

  lemma ClaimMeans(db: Db, run: RunId, worker: WorkerId)
    requires CanClaim(db, run)
    ensures RunClaimed(db, Claim(db, run, worker), run, worker)
  {
  }

  /** The step's run is running and nobody asked to cancel it. */
  ghost predicate OfActiveRun(db: Db, step: StepId) {
    && step in db.steps && db.steps[step].run in db.runs
    && db.runs[db.steps[step].run].status == Running && !db.runs[db.steps[step].run].cancelRequested
  }

  ghost predicate StepBegan(db: Db, t: Db, step: StepId) {
    && OfActiveRun(db, step) && db.steps[step].status == StepPending
    && SameStepsBut(db, t, step) && t.steps[step] == db.steps[step].(status := StepRunning)
    && t.runs == db.runs && t.targets == db.targets && SameBooks(db, t)
  }

  lemma StartStepMeans(db: Db, step: StepId)
    requires CanStartStep(db, step)
    ensures StepBegan(db, StartStep(db, step), step)
  {
  }

  ghost predicate ContainerPlanned(db: Db, t: Db, run: RunId, step: StepId) {
    && OfActiveRun(db, step) && db.steps[step].run == run && db.steps[step].status == StepRunning
    && SameStepsBut(db, t, step) && t.steps[step] == db.steps[step].(planned := true)
    && t.runs == db.runs && t.targets == db.targets && SameBooks(db, t)
  }

  lemma PlanMeans(db: Db, run: RunId, step: StepId)
    requires CanPlan(db, run, step)
    ensures ContainerPlanned(db, Plan(db, step), run, step)
  {
  }

  /** A running deploy step of an active run takes its run's target if it is free, under the
      next generation; if it has it already nothing but the step's generation is set again. */
  ghost predicate TargetTaken(db: Db, t: Db, run: RunId, step: StepId) {
    && OfActiveRun(db, step) && db.steps[step].run == run && db.steps[step].status == StepRunning && db.steps[step].deploy
    && db.runs[run].target != ""
    && var key := TargetKey(db.runs[run].repo, db.runs[run].target);
    && SameTargetsBut(db, t, key) && key in t.targets
    && (key in db.targets && db.runs[run].trigger == ByPush ==> db.targets[key].latest <= db.runs[run].number)
    && (key !in db.targets ==> t.targets[key] == TargetRow(1, 0, Some(Owner(run, step))))
    && (key in db.targets && db.targets[key].owner.None? ==>
          t.targets[key] == TargetRow(db.targets[key].generation + 1, db.targets[key].latest, Some(Owner(run, step))))
    && (key in db.targets && db.targets[key].owner.Some? ==>
          db.targets[key].owner.value.step == step && t.targets[key] == db.targets[key])
    && SameStepsBut(db, t, step) && t.steps[step] == db.steps[step].(generation := Some(t.targets[key].generation))
    && t.runs == db.runs && SameBooks(db, t)
  }

  lemma AcquireMeans(db: Db, run: RunId, step: StepId)
    requires CanDeploy(db, run, step)
    ensures TargetTaken(db, Acquire(db, run, step), run, step)
  {
  }

  // ----- receipts -----

  /** A receipt sets the step's status and code, records a deployment exactly for a deploy
      step that passed, and leaves no target to the step; every other row stays. */
  ghost predicate ReceiptTaken(db: Db, t: Db, run: RunId, step: StepId, status: StepStatus, code: Option<int>) {
    && run in db.runs && step in db.steps && db.steps[step].run == run
    && SameStepsBut(db, t, step) && t.steps[step] == db.steps[step].(status := status, code := code)
    && t.runs == db.runs && t.counters == db.counters && t.usedRuns == db.usedRuns && t.usedSteps == db.usedSteps
    && t.targets.Keys == db.targets.Keys
    && (forall k :: k in db.targets && db.targets[k].owner != Some(Owner(run, step)) ==> t.targets[k] == db.targets[k])
    && (forall k :: k in db.targets && db.targets[k].owner == Some(Owner(run, step)) ==>
          && t.targets[k].owner.None? && t.targets[k].generation == db.targets[k].generation
          && t.targets[k].latest == if db.steps[step].deploy && status == StepPassed && db.runs[run].number > db.targets[k].latest
                                    then db.runs[run].number else db.targets[k].latest)
    && (!(db.steps[step].deploy && status == StepPassed) ==> t.log == db.log)
    && (db.steps[step].deploy && status == StepPassed ==> DeploymentAdded(db, t, run, step))
  }

  /** The deployment names the run's own target, number and trigger and the owner's generation. */
  ghost predicate DeploymentAdded(db: Db, t: Db, run: RunId, step: StepId)
    requires run in db.runs
  {
    var key := TargetKey(db.runs[run].repo, db.runs[run].target);
    && key in db.targets && db.targets[key].owner == Some(Owner(run, step))
    && |t.log| == |db.log| + 1 && (forall i :: 0 <= i < |db.log| ==> t.log[i] == db.log[i])
    && t.log[|db.log|] == Deployment(key, run, step, db.runs[run].number, db.runs[run].trigger, db.targets[key].generation)
  }

  /** A step owns no target but its run's, and holds that target's generation. */
  lemma OwnedTargetIsOwn(db: Db, run: RunId, step: StepId, k: TargetKey)
    requires Owned(db.runs, db.steps, db.targets) && Fitting(db.runs, db.steps)
    requires k in db.targets && db.targets[k].owner == Some(Owner(run, step))
    ensures run in db.runs && step in db.steps && db.steps[step].run == run && k == KeyOf(db.runs[run])
    ensures db.steps[step].deploy && db.steps[step].generation == Some(db.targets[k].generation)
  {
    assert Legitimate(db.runs, db.steps, k, db.targets[k]);
    assert Fits(db.steps[step], db.runs[run].status);
  }

  lemma ReceiptTargets(db: Db, run: RunId, step: StepId, status: StepStatus, code: Option<int>, recovery: bool, k: TargetKey)
    requires Owned(db.runs, db.steps, db.targets) && Fitting(db.runs, db.steps)
    requires CanReceive(db, run, step, status, code, recovery) && k in db.targets
    ensures var t := FinishStep(db, run, step, status, code, recovery);
            && k in t.targets
            && (db.targets[k].owner != Some(Owner(run, step)) ==> t.targets[k] == db.targets[k])
            && (db.targets[k].owner == Some(Owner(run, step)) ==>
                  && t.targets[k].owner.None? && t.targets[k].generation == db.targets[k].generation
                  && t.targets[k].latest == if db.steps[step].deploy && status == StepPassed && db.runs[run].number > db.targets[k].latest
                                            then db.runs[run].number else db.targets[k].latest)
  {
    if db.targets[k].owner == Some(Owner(run, step)) {
      OwnedTargetIsOwn(db, run, step, k);
    }
  }

  lemma ReceiptRest(db: Db, run: RunId, step: StepId, status: StepStatus, code: Option<int>, recovery: bool)
    requires CanReceive(db, run, step, status, code, recovery)
    ensures var t := FinishStep(db, run, step, status, code, recovery);
            && SameStepsBut(db, t, step) && t.steps[step] == db.steps[step].(status := status, code := code)
            && t.runs == db.runs && t.counters == db.counters && t.usedRuns == db.usedRuns && t.usedSteps == db.usedSteps
            && t.targets.Keys == db.targets.Keys
  {
  }

  lemma ReceiptLog(db: Db, run: RunId, step: StepId, status: StepStatus, code: Option<int>, recovery: bool)
    requires CanReceive(db, run, step, status, code, recovery)
    ensures var t := FinishStep(db, run, step, status, code, recovery);
            && (!(db.steps[step].deploy && status == StepPassed) ==> t.log == db.log)
            && (db.steps[step].deploy && status == StepPassed ==> DeploymentAdded(db, t, run, step))
  {
  }

  /** Also for a receipt without exit code: afterwards no target is left to the step. */
  lemma ReceiptMeans(db: Db, run: RunId, step: StepId, status: StepStatus, code: Option<int>, recovery: bool)
    requires Inv(db) && CanReceive(db, run, step, status, code, recovery)
    ensures ReceiptTaken(db, FinishStep(db, run, step, status, code, recovery), run, step, status, code)
  {
    ReceiptRest(db, run, step, status, code, recovery);
    ReceiptLog(db, run, step, status, code, recovery);
    forall k | k in db.targets
      ensures var t := FinishStep(db, run, step, status, code, recovery);
              && (db.targets[k].owner != Some(Owner(run, step)) ==> t.targets[k] == db.targets[k])
              && (db.targets[k].owner == Some(Owner(run, step)) ==>
                    && t.targets[k].owner.None? && t.targets[k].generation == db.targets[k].generation
                    && t.targets[k].latest == if db.steps[step].deploy && status == StepPassed && db.runs[run].number > db.targets[k].latest
                                              then db.runs[run].number else db.targets[k].latest)
    {
      ReceiptTargets(db, run, step, status, code, recovery, k);
    }
  }

  // ----- ends of runs -----

  /** A running run ends; its running steps fail and its pending ones are skipped, or all are
      cancelled if the run is. */
  ghost predicate RunDone(db: Db, t: Db, run: RunId, status: RunStatus) {
    && run in db.runs && db.runs[run].status == Running && RunsBecome(db, t, {run}, status)
    && (status == Cancelled ==> OpenStepsBecome(db, t, {run}, StepCancelled, StepCancelled))
    && (status != Cancelled ==> OpenStepsBecome(db, t, {run}, StepFailed, StepSkipped))
    && t.targets == db.targets && SameBooks(db, t)
  }

  lemma FinishMeans(db: Db, run: RunId, status: RunStatus)
    requires CanEnd(db, run)
    ensures RunDone(db, CiTables.Finish(db, run, status), run, status)
  {
  }

  /** A queued run is cancelled with its open steps, a running one only flagged. */
  ghost predicate CancelAsked(db: Db, t: Db, run: RunId) {
    && run in db.runs && (db.runs[run].status == Queued || db.runs[run].status == Running)
    && (db.runs[run].status == Queued ==>
          RunsBecome(db, t, {run}, Cancelled) && OpenStepsBecome(db, t, {run}, StepCancelled, StepCancelled))
    && (db.runs[run].status == Running ==>
          SameRunsBut(db, t, run) && t.runs[run] == db.runs[run].(cancelRequested := true) && t.steps == db.steps)
    && t.targets == db.targets && SameBooks(db, t)
  }

  lemma CancelMeans(db: Db, run: RunId)
    requires CanCancel(db, run)
    ensures CancelAsked(db, CiTables.Cancel(db, run), run)
  {
  }

  ghost function RunningOf(db: Db, runs: seq<RunId>): set<RunId> {
    set r | r in db.runs && r in runs && db.runs[r].status == Running
  }

  /** The running runs among the given ones fail, with their steps; no target is touched. */
  ghost predicate LostFailed(db: Db, t: Db, lost: seq<RunId>) {
    && RunsBecome(db, t, RunningOf(db, lost), Failed) && OpenStepsBecome(db, t, RunningOf(db, lost), StepFailed, StepSkipped)
    && t.targets == db.targets && SameBooks(db, t)
  }

  lemma LostOneMore(db: Db, mid: Db, lost: seq<RunId>, run: RunId)
    requires LostFailed(db, mid, lost)
    ensures LostFailed(db, if CanFinish(mid, run, Failed) then CiTables.Finish(mid, run, Failed) else mid, lost + [run])
  {
    var more := RunningOf(db, lost + [run]);
    if CanFinish(mid, run, Failed) {
      FinishMeans(mid, run, Failed);
      assert more == RunningOf(db, lost) + {run};
    } else {
      assert more == RunningOf(db, lost);
    }
  }

  lemma {:induction false} FailLostMeans(db: Db, lost: seq<RunId>)
    ensures LostFailed(db, FailLost(db, lost), lost)
  {
    if lost != [] {
      var n := |lost| - 1;
      FailLostMeans(db, lost[..n]);
      LostOneMore(db, FailLost(db, lost[..n]), lost[..n], lost[n]);
      assert lost[..n] + [lost[n]] == lost;
    }
  }

  /** The run's running deploy steps fail and its targets lose their owner. */
  ghost predicate Stopped(db: Db, t: Db, run: RunId) {
    && t.steps.Keys == db.steps.Keys && t.targets.Keys == db.targets.Keys
    && (forall s :: s in db.steps && db.steps[s].run == run && db.steps[s].deploy && db.steps[s].status == StepRunning ==>
          t.steps[s] == db.steps[s].(status := StepFailed))
    && (forall s :: s in db.steps && !(db.steps[s].run == run && db.steps[s].deploy && db.steps[s].status == StepRunning) ==>
          t.steps[s] == db.steps[s])
    && TargetsFreed(db, t, {run})
    && t.runs == db.runs && SameBooks(db, t)
  }

  /** Targets owned by runs of the set lose their owner, nothing else. */
  ghost predicate TargetsFreed(db: Db, t: Db, gone: set<RunId>) {
    && t.targets.Keys == db.targets.Keys
    && (forall k :: k in db.targets && db.targets[k].owner.Some? && db.targets[k].owner.value.run in gone ==>
          t.targets[k] == db.targets[k].(owner := None))
    && (forall k :: k in db.targets && !(db.targets[k].owner.Some? && db.targets[k].owner.value.run in gone) ==>
          t.targets[k] == db.targets[k])
  }

  lemma ConfirmStoppedMeans(db: Db, run: RunId)
    ensures Stopped(db, ConfirmStopped(db, run), run)
  {
  }

  ghost predicate ContainersGone(db: Db, t: Db, run: RunId) {
    && t.steps.Keys == db.steps.Keys
    && (forall s :: s in db.steps && db.steps[s].run == run && db.steps[s].planned ==> t.steps[s] == db.steps[s].(removed := true))
    && (forall s :: s in db.steps && !(db.steps[s].run == run && db.steps[s].planned) ==> t.steps[s] == db.steps[s])
    && t.runs == db.runs && t.targets == db.targets && SameBooks(db, t)
  }

  lemma ContainersRemovedMeans(db: Db, run: RunId)
    ensures ContainersGone(db, db.(steps := RemoveContainers(db.steps, run)), run)
  {
  }

  // ----- the release of a worker -----

  /** What releasing the runs of the list does to their steps: open ones are settled if the
      run was running, and every planned container counts as removed. */
  ghost function ReleasedStep(db: Db, runs: seq<RunId>, s: StepId): StepRow
    requires s in db.steps
  {
    var step := db.steps[s];
    if step.run !in runs then step
    else
      var running := step.run in db.runs && db.runs[step.run].status == Running;
      step.(status := if running && step.status == StepRunning then StepFailed
                      else if running && step.status == StepPending then StepSkipped
                      else step.status,
            removed := step.removed || step.planned)
  }

  ghost predicate RunsReleased(db: Db, t: Db, runs: seq<RunId>) {
    && RunsBecome(db, t, RunningOf(db, runs), Failed)
    && t.steps.Keys == db.steps.Keys && (forall s :: s in db.steps ==> t.steps[s] == ReleasedStep(db, runs, s))
    && TargetsFreed(db, t, RunningOf(db, runs)) && SameBooks(db, t)
  }

  lemma ReleasedRuns(db: Db, mid: Db, runs: seq<RunId>, run: RunId)
    requires RunsReleased(db, mid, runs)
    ensures RunsBecome(db, ReleaseRun(mid, run), RunningOf(db, runs + [run]), Failed)
    ensures TargetsFreed(db, ReleaseRun(mid, run), RunningOf(db, runs + [run])) && SameBooks(db, ReleaseRun(mid, run))
  {
    var more := RunningOf(db, runs + [run]);
    if CanFinish(mid, run, Failed) {
      assert more == RunningOf(db, runs) + {run};
    } else {
      assert more == RunningOf(db, runs);
    }
  }

  lemma ReleasedOne(mid: Db, run: RunId, s: StepId)
    requires s in mid.steps && mid.steps[s].run == run
    ensures s in ReleaseRun(mid, run).steps
    ensures var running, step := run in mid.runs && mid.runs[run].status == Running, mid.steps[s];
            ReleaseRun(mid, run).steps[s] ==
              step.(status := if running && step.status == StepRunning then StepFailed
                              else if running && step.status == StepPending then StepSkipped
                              else step.status,
                    removed := step.removed || step.planned)
  {
  }

  lemma ReleasedOther(mid: Db, run: RunId, s: StepId)
    requires s in mid.steps && mid.steps[s].run != run
    ensures s in ReleaseRun(mid, run).steps && ReleaseRun(mid, run).steps[s] == mid.steps[s]
  {
  }

  lemma ReleasedSteps(db: Db, mid: Db, runs: seq<RunId>, run: RunId, s: StepId)
    requires RunsReleased(db, mid, runs) && s in db.steps
    ensures s in ReleaseRun(mid, run).steps && ReleaseRun(mid, run).steps[s] == ReleasedStep(db, runs + [run], s)
  {
    if mid.steps[s].run == run {
      ReleasedOne(mid, run, s);
    } else {
      ReleasedOther(mid, run, s);
    }
  }

  lemma {:induction false} ReleaseRunsMeans(db: Db, runs: seq<RunId>)
    ensures RunsReleased(db, ReleaseRuns(db, runs), runs)
  {
    if runs != [] {
      var n := |runs| - 1;
      var mid := ReleaseRuns(db, runs[..n]);
      ReleaseRunsMeans(db, runs[..n]);
      assert runs[..n] + [runs[n]] == runs;
      ReleasedRuns(db, mid, runs[..n], runs[n]);
      forall s | s in db.steps ensures ReleaseRuns(db, runs).steps[s] == ReleasedStep(db, runs, s) {
        ReleasedSteps(db, mid, runs[..n], runs[n], s);
      }
      ReleaseKeepsKeys(mid, runs[n]);
    }
  }

  lemma ReleaseKeepsKeys(db: Db, run: RunId)
    ensures ReleaseRun(db, run).steps.Keys == db.steps.Keys
  {
  }

  /** Runs of the worker, or the given one of them. */
  ghost function HeldBy(db: Db, worker: WorkerId, only: Option<RunId>): set<RunId> {
    set r | r in db.runs && db.runs[r].worker == Some(worker) && (only.None? || only.value == r)
  }

  /** The worker's running runs fail with their steps, its containers count as removed and
      its targets are free; no other run, step or target changes. */
  ghost predicate WorkerReleased(db: Db, t: Db, worker: WorkerId, only: Option<RunId>) {
    var held := HeldBy(db, worker, only);
    && t.runs.Keys == db.runs.Keys && t.steps.Keys == db.steps.Keys
    && (forall r :: r in db.runs ==>
          t.runs[r] == if r in held && db.runs[r].status == Running then db.runs[r].(status := Failed) else db.runs[r])
    && (forall s :: s in db.steps ==> WorkerStep(db, t, worker, only, s))
    && TargetsFreed(db, t, held) && SameBooks(db, t)
  }

  ghost predicate WorkerStep(db: Db, t: Db, worker: WorkerId, only: Option<RunId>, s: StepId)
    requires s in db.steps
  {
    && s in t.steps
    && (db.steps[s].run !in HeldBy(db, worker, only) ==> t.steps[s] == db.steps[s])
    && (db.steps[s].run in HeldBy(db, worker, only) ==>
          var running := db.runs[db.steps[s].run].status == Running;
          && t.steps[s].removed == (db.steps[s].removed || db.steps[s].planned)
          && t.steps[s].status == (if running && db.steps[s].status == StepRunning then StepFailed
                                   else if running && db.steps[s].status == StepPending then StepSkipped
                                   else db.steps[s].status)
          && t.steps[s] == db.steps[s].(status := t.steps[s].status, removed := t.steps[s].removed))
  }

  lemma StrandedAreHeld(db: Db, worker: WorkerId, only: Option<RunId>, runs: seq<RunId>)
    requires CanReleaseWorker(db, worker, only, runs)
    ensures forall r :: r in runs ==> r in HeldBy(db, worker, only)
    ensures forall r :: r in HeldBy(db, worker, only) && db.runs[r].status == Running ==> r in runs
    ensures RunningOf(db, runs) == set r | r in HeldBy(db, worker, only) && db.runs[r].status == Running
  {
    forall r | r in runs ensures r in HeldBy(db, worker, only) {
      assert Stranded(db, worker, only, r);
    }
    forall r | r in HeldBy(db, worker, only) && db.runs[r].status == Running ensures r in runs {
      assert Stranded(db, worker, only, r);
    }
  }

  lemma UnstrandedStep(db: Db, worker: WorkerId, only: Option<RunId>, runs: seq<RunId>, s: StepId)
    requires CanReleaseWorker(db, worker, only, runs)
    requires s in db.steps && db.steps[s].run in HeldBy(db, worker, only) && db.steps[s].run !in runs
    ensures db.runs[db.steps[s].run].status != Running && (db.steps[s].planned ==> db.steps[s].removed)
  {
    assert !Stranded(db, worker, only, db.steps[s].run);
  }

  lemma WorkerSteps(db: Db, worker: WorkerId, only: Option<RunId>, runs: seq<RunId>, s: StepId)
    requires CanReleaseWorker(db, worker, only, runs) && s in db.steps
    ensures db.steps[s].run !in HeldBy(db, worker, only) ==> ReleasedStep(db, runs, s) == db.steps[s]
    ensures db.steps[s].run in HeldBy(db, worker, only) ==>
      var running, after := db.runs[db.steps[s].run].status == Running, ReleasedStep(db, runs, s);
      && after.removed == (db.steps[s].removed || db.steps[s].planned)
      && after.status == (if running && db.steps[s].status == StepRunning then StepFailed
                          else if running && db.steps[s].status == StepPending then StepSkipped
                          else db.steps[s].status)
      && after == db.steps[s].(status := after.status, removed := after.removed)
  {
    StrandedAreHeld(db, worker, only, runs);
    if db.steps[s].run in HeldBy(db, worker, only) && db.steps[s].run !in runs {
      UnstrandedStep(db, worker, only, runs, s);
    }
  }

  lemma WorkerTargets(db: Db, worker: WorkerId, only: Option<RunId>, runs: seq<RunId>)
    requires CanReleaseWorker(db, worker, only, runs) && TargetsFreed(db, ReleaseRuns(db, runs), RunningOf(db, runs))
    ensures TargetsFreed(db, CiTables.ReleaseWorker(db, worker, only, runs), HeldBy(db, worker, only))
  {
    StrandedAreHeld(db, worker, only, runs);
    assert OfWorker(db.runs, worker, only) == HeldBy(db, worker, only);
  }

  lemma ReleaseWorkerMeans(db: Db, worker: WorkerId, only: Option<RunId>, runs: seq<RunId>)
    requires CanReleaseWorker(db, worker, only, runs)
    ensures WorkerReleased(db, CiTables.ReleaseWorker(db, worker, only, runs), worker, only)
  {
    ReleaseRunsMeans(db, runs);
    StrandedAreHeld(db, worker, only, runs);
    WorkerTargets(db, worker, only, runs);
    forall s | s in db.steps ensures WorkerStep(db, CiTables.ReleaseWorker(db, worker, only, runs), worker, only, s) {
      WorkerSteps(db, worker, only, runs, s);
    }
  }

  /** The run and its steps are gone; nothing else is. */
  ghost predicate RunPruned(db: Db, t: Db, run: RunId) {
    && run in db.runs && t.runs.Keys == db.runs.Keys - {run} && (forall r :: r in t.runs ==> t.runs[r] == db.runs[r])
    && (forall s :: s in t.steps <==> s in db.steps && db.steps[s].run != run) && (forall s :: s in t.steps ==> t.steps[s] == db.steps[s])
    && t.targets == db.targets && SameBooks(db, t)
  }

  lemma PruneMeans(db: Db, run: RunId)
    requires CanPrune(db, run)
    ensures RunPruned(db, Prune(db, run), run)
  {
  }

  ghost predicate ContainerGone(db: Db, t: Db, step: StepId) {
    && step in db.steps && SameStepsBut(db, t, step) && t.steps[step] == db.steps[step].(removed := true)
    && t.runs == db.runs && t.targets == db.targets && SameBooks(db, t)
  }

  // ----- all transactions -----

  ghost predicate Means(db: Db, tx: Step, t: Db) {
    match tx
    case CreateTx(id, row, plan) => RunCreated(db, t, id, row, plan)
    case CancelQueuedTx(repo, ref) => QueueCleared(db, t, repo, ref)
    case ClaimTx(run, worker) => RunClaimed(db, t, run, worker)
    case StepStartedTx(step) => StepBegan(db, t, step)
    case BeginDeploymentTx(run, step) => TargetTaken(db, t, run, step)
    case StepFinishedTx(run, step, status, code) => ReceiptTaken(db, t, run, step, status, code)
    case RecoverStepExitTx(run, step, exit) => ReceiptTaken(db, t, run, step, if exit == 0 then StepPassed else StepFailed, Some(exit))
    case FinishTx(run, status) => RunDone(db, t, run, status)
    case CancelTx(run) => CancelAsked(db, t, run)
    case FailLostTx(lost) => LostFailed(db, t, lost)
    case ConfirmStoppedTx(run) => Stopped(db, t, run)
    case ReleaseWorkerTx(worker, only, _) => WorkerReleased(db, t, worker, only)
    case PlanContainerTx(run, step) => ContainerPlanned(db, t, run, step)
    case ContainerRemovedTx(step) => ContainerGone(db, t, step)
    case ContainersRemovedTx(run) => ContainersGone(db, t, run)
    case PruneRunTx(run) => RunPruned(db, t, run)
  }

  lemma StartMeans(db: Db, tx: Step)
    requires Inv(db) && Enabled(db, tx)
    requires tx.CreateTx? || tx.CancelQueuedTx? || tx.ClaimTx? || tx.StepStartedTx? || tx.BeginDeploymentTx? || tx.PlanContainerTx?
    ensures Means(db, tx, Effect(db, tx))
  {
    if tx.CreateTx? {
      CreateMeans(db, tx.id, tx.row, tx.plan);
    } else if tx.CancelQueuedTx? {
      CancelQueuedMeans(db, tx.repo, tx.ref);
    } else if tx.ClaimTx? {
      ClaimMeans(db, tx.run, tx.worker);
    } else if tx.StepStartedTx? {
      StartStepMeans(db, tx.step);
    } else if tx.BeginDeploymentTx? {
      AcquireMeans(db, tx.run, tx.step);
    } else {
      PlanMeans(db, tx.run, tx.step);
    }
  }

  lemma EndMeans(db: Db, tx: Step)
    requires Inv(db) && Enabled(db, tx)
    requires tx.StepFinishedTx? || tx.RecoverStepExitTx? || tx.FinishTx? || tx.CancelTx? || tx.FailLostTx? || tx.ConfirmStoppedTx?
    ensures Means(db, tx, Effect(db, tx))
  {
    if tx.StepFinishedTx? {
      ReceiptMeans(db, tx.run, tx.step, tx.verdict, tx.code, false);
    } else if tx.RecoverStepExitTx? {
      ReceiptMeans(db, tx.run, tx.step, ExitStatus(tx.exit), Some(tx.exit), true);
    } else if tx.FinishTx? {
      FinishMeans(db, tx.run, tx.status);
    } else if tx.CancelTx? {
      CancelMeans(db, tx.run);
    } else if tx.FailLostTx? {
      FailLostMeans(db, tx.lost);
    } else {
      ConfirmStoppedMeans(db, tx.run);
      ConfirmStoppedEffect(db, tx.run);
    }
  }

  lemma CleanupMeans(db: Db, tx: Step)
    requires Enabled(db, tx)
    requires tx.ReleaseWorkerTx? || tx.ContainerRemovedTx? || tx.ContainersRemovedTx? || tx.PruneRunTx?
    ensures Means(db, tx, Effect(db, tx))
  {
    if tx.ReleaseWorkerTx? {
      ReleaseWorkerMeans(db, tx.worker, tx.only, tx.runs);
    } else if tx.ContainersRemovedTx? {
      ContainersRemovedMeans(db, tx.run);
    } else if tx.PruneRunTx? {
      PruneMeans(db, tx.run);
    }
  }

  lemma InvMeans(db: Db, tx: Step)
    requires Inv(db) && Enabled(db, tx)
    ensures Means(db, tx, Effect(db, tx))
  {
    if tx.CreateTx? || tx.CancelQueuedTx? || tx.ClaimTx? || tx.StepStartedTx? || tx.BeginDeploymentTx? || tx.PlanContainerTx? {
      StartMeans(db, tx);
    } else if tx.ReleaseWorkerTx? || tx.ContainerRemovedTx? || tx.ContainersRemovedTx? || tx.PruneRunTx? {
      CleanupMeans(db, tx);
    } else {
      EndMeans(db, tx);
    }
  }

  /** In every reachable state each transaction does to every row exactly what `Means` says. */
  lemma EffectMeans(db: Db, tx: Step)
    requires Reachable(db) && Enabled(db, tx)
    ensures Means(db, tx, Effect(db, tx))
  {
    ReachableInv(db);
    InvMeans(db, tx);
  }

  /** The transaction was possible, is what happened, and did to every row what it means. */
  ghost predicate Did(before: Db, tx: Step, after: Db) {
    Enabled(before, tx) && after == Effect(before, tx) && Means(before, tx, after)
  }

  lemma Advance(before: Db, tx: Step, after: Db)
    requires Reachable(before) && Enabled(before, tx) && after == Effect(before, tx)
    ensures Reachable(after) && Did(before, tx, after)
  {
    var start, steps :| Reaches(start, steps, before);
    AfterOneMore(start, steps, tx);
    assert Reaches(start, steps + [tx], after);
    EffectMeans(before, tx);
  }

  // ----- owners of targets -----

  /** The owner of a target is an open step, or its run has ended, by another transaction
      than a receipt. */
  ghost predicate OwnerOpen(db: Db, owner: Owner) {
    && owner.step in db.steps && owner.run in db.runs
    && (Open(db.steps[owner.step].status) || Ended(db.runs[owner.run].status))
  }

  ghost predicate OwnersOpen(db: Db) {
    forall k :: k in db.targets && db.targets[k].owner.Some? ==> OwnerOpen(db, db.targets[k].owner.value)
  }

  lemma OwnerStaysOpen(db: Db, tx: Step, t: Db, k: TargetKey, owner: Owner)
    requires k in db.targets && db.targets[k].owner == Some(owner) && k in t.targets && t.targets[k].owner == Some(owner)
    requires Legitimate(db.runs, db.steps, k, db.targets[k]) && OwnerOpen(db, owner) && Means(db, tx, t)
    requires Enabled(db, tx)
    ensures OwnerOpen(t, owner)
  {
    if tx.CreateTx? || tx.CancelQueuedTx? {
      OwnerThroughQueue(db, tx, t, k, owner);
    } else if tx.FinishTx? || tx.CancelTx? || tx.FailLostTx? || tx.ConfirmStoppedTx? || tx.ReleaseWorkerTx? {
      OwnerThroughEnd(db, tx, t, k, owner);
    } else {
      OwnerThroughWork(db, tx, t, k, owner);
    }
  }

  lemma OwnerThroughQueue(db: Db, tx: Step, t: Db, k: TargetKey, owner: Owner)
    requires k in db.targets && db.targets[k].owner == Some(owner) && k in t.targets && t.targets[k].owner == Some(owner)
    requires Legitimate(db.runs, db.steps, k, db.targets[k]) && OwnerOpen(db, owner) && Means(db, tx, t)
    requires tx.CreateTx? || tx.CancelQueuedTx?
    ensures OwnerOpen(t, owner)
  {
  }

  lemma OwnerThroughEnd(db: Db, tx: Step, t: Db, k: TargetKey, owner: Owner)
    requires k in db.targets && db.targets[k].owner == Some(owner) && k in t.targets && t.targets[k].owner == Some(owner)
    requires Legitimate(db.runs, db.steps, k, db.targets[k]) && OwnerOpen(db, owner) && Means(db, tx, t)
    requires tx.FinishTx? || tx.CancelTx? || tx.FailLostTx? || tx.ConfirmStoppedTx? || tx.ReleaseWorkerTx?
    requires Enabled(db, tx)
    ensures OwnerOpen(t, owner)
  {
  }

  lemma OwnerThroughWork(db: Db, tx: Step, t: Db, k: TargetKey, owner: Owner)
    requires k in db.targets && db.targets[k].owner == Some(owner) && k in t.targets && t.targets[k].owner == Some(owner)
    requires Legitimate(db.runs, db.steps, k, db.targets[k]) && OwnerOpen(db, owner) && Means(db, tx, t)
    requires Enabled(db, tx)
    requires !tx.CreateTx? && !tx.CancelQueuedTx?
             && !tx.FinishTx? && !tx.CancelTx? && !tx.FailLostTx? && !tx.ConfirmStoppedTx? && !tx.ReleaseWorkerTx?
    ensures OwnerOpen(t, owner)
  {
  }

  lemma OwnerAfter(db: Db, tx: Step, t: Db, k: TargetKey)
    requires Owned(db.runs, db.steps, db.targets) && OwnersOpen(db) && Enabled(db, tx)
    requires OwnershipMoves(db, tx, t) && Means(db, tx, t)
    requires k in t.targets && t.targets[k].owner.Some?
    ensures OwnerOpen(t, t.targets[k].owner.value)
  {
    assert TargetMoves(db, tx, TargetOf(db, k), t.targets[k]);
    if k in db.targets && db.targets[k].owner == t.targets[k].owner {
      assert Legitimate(db.runs, db.steps, k, db.targets[k]);
      OwnerStaysOpen(db, tx, t, k, t.targets[k].owner.value);
    }
  }

  lemma OwnersStayOpen(db: Db, tx: Step, t: Db)
    requires Owned(db.runs, db.steps, db.targets) && OwnersOpen(db) && Enabled(db, tx)
    requires OwnershipMoves(db, tx, t) && Means(db, tx, t)
    ensures OwnersOpen(t)
  {
    forall k | k in t.targets && t.targets[k].owner.Some? ensures OwnerOpen(t, t.targets[k].owner.value) {
      OwnerAfter(db, tx, t, k);
    }
  }

  lemma {:induction false} OwnersAlwaysOpen(db: Db, steps: seq<Step>)
    requires Inv(db) && OwnersOpen(db) && Possible(db, steps)
    ensures OwnersOpen(After(db, steps))
    decreases |steps|
  {
    if steps != [] {
      InvMeans(db, steps[0]);
      OwnershipStep(db, steps[0]);
      OwnersStayOpen(db, steps[0], Effect(db, steps[0]));
      Keeps(db, steps[0]);
      OwnersAlwaysOpen(Effect(db, steps[0]), steps[1..]);
    }
  }

  /** In every history a step that has finished owns no target unless its run has ended. */
  lemma FinishedStepsOwnNothing(db: Db)
    requires Reachable(db)
    ensures OwnersOpen(db)
  {
    var start, steps :| Reaches(start, steps, db);
    OwnersAlwaysOpen(start, steps);
  }
}
