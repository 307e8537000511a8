/** The CI service over its tables. Every public operation is one database transaction: it
    either performs one transaction of CiTables in full or leaves the tables alone. */
module CiStore {
  import opened Options
  import opened CiTables
  import opened CiSafety
  import opened CiTheorems
  import opened CiEffects

  datatype Outcome = Done | Ignored | NotFound | RunEnded | RunFinished | OwnershipLost | Busy | Overtaken | WorkerAlive

  datatype WorkerRow = WorkerRow(stopped: bool, ready: bool, activeRuns: nat)

  lemma RunExists(db: Db, step: StepId)
    requires Reachable(db) && step in db.steps
    ensures db.steps[step].run in db.runs
  {
    ReachableInv(db);
  }

  lemma NumberIsUnique(db: Db, run: RunId)
    requires Reachable(db) && run in db.runs
    ensures forall r :: r in db.runs && db.runs[r].repo == db.runs[run].repo && db.runs[r].number == db.runs[run].number ==> r == run
  {
    ReachableInv(db);
  }

  lemma CodeIsFinal(db: Db, step: StepId)
    requires Reachable(db)
    ensures step in db.steps && db.steps[step].code.Some? ==> Final(db.steps[step].status)
  {
    ReachableInv(db);
    if step in db.steps {
      assert Fits(db.steps[step], db.runs[db.steps[step].run].status);
    }
  }

  /** `ids` lists each element of `rows` once, as a query without an order may. */
  ghost predicate Lists(ids: seq<RunId>, rows: set<RunId>) {
    && (forall i :: 0 <= i < |ids| ==> ids[i] in rows)
    && (forall r :: r in rows ==> r in ids)
    && (forall i, j :: 0 <= i < j < |ids| ==> ids[i] != ids[j])
  }

  method ListRows(rows: set<RunId>) returns (ids: seq<RunId>)
    ensures Lists(ids, rows)
  {
    ids := [];
    var rest := rows;
    while rest != {}
      invariant rest <= rows
      invariant forall i :: 0 <= i < |ids| ==> ids[i] in rows && ids[i] !in rest
      invariant forall r :: r in rows ==> r in rest || r in ids
      invariant forall i, j :: 0 <= i < j < |ids| ==> ids[i] != ids[j]
      decreases rest
    {
      var r :| r in rest;
      ids, rest := ids + [r], rest - {r};
    }
  }

  class Store {
    var runs: map<RunId, RunRow>
    var steps: map<StepId, StepRow>
    var targets: map<TargetKey, TargetRow>
    var counters: map<RepoId, nat>
    var log: seq<Deployment>
    var usedRuns: set<RunId>
    var usedSteps: set<StepId>
    var workers: map<WorkerId, WorkerRow>

    function View(): Db
      reads this
    {
      Db(runs, steps, targets, counters, log, usedRuns, usedSteps)
    }

    ghost predicate Valid()
      reads this
    {
      Reachable(View())
    }

    /** An instance whose repositories have run nothing yet. */
    constructor (repos: map<RepoId, nat>, registered: map<WorkerId, WorkerRow>)
      ensures Valid() && Initial(View()) && counters == repos && workers == registered
    {
      workers := registered;
      runs, steps, targets, counters, log, usedRuns, usedSteps := map[], map[], map[], repos, [], {}, {};
      new;
      Begin(View());
    }

    // ----- statements -----

    method FinishRunRow(run: RunId, status: RunStatus) returns (found: bool)
      modifies this`runs
      ensures found == (run in old(runs) && old(runs)[run].status == Running)
      ensures runs == if found then old(runs)[run := old(runs)[run].(status := status)] else old(runs)
    {
      found := run in runs && runs[run].status == Running;
      if found {
        runs := runs[run := runs[run].(status := status)];
      }
    }

    /** confirmExecutionStoppedTx, the part of it that ReleaseLostWorker shares. */
    method ConfirmExecutionStoppedTx(run: RunId)
      modifies this`steps, this`targets
      ensures View() == ConfirmStopped(old(View()), run)
    {
      steps := FailDeploySteps(steps, run);
      targets := ReleaseOwners(targets, {run});
    }

    method ConfirmExecutionStopped(run: RunId)
      requires Valid()
      modifies this
      ensures workers == old(workers)
      ensures Valid() && Did(old(View()), ConfirmStoppedTx(run), View()) && View() == ConfirmStopped(old(View()), run)
    {
      ghost var before := View();
      ConfirmExecutionStoppedTx(run);
      ConfirmStoppedEffect(before, run);
      Advance(before, ConfirmStoppedTx(run), View());
    }

    /** Called after cleanup removed every container of the run: two transactions, after
        which the run has neither a container nor a target. */
    method ConfirmContainersRemoved(run: RunId)
      requires Valid()
      modifies this
      ensures workers == old(workers)
      ensures Valid()
      ensures var stopped := ConfirmStopped(old(View()), run);
              View() == stopped.(steps := RemoveContainers(stopped.steps, run))
      ensures !HasContainer(View(), run) && !OwnsTarget(View(), run)
    {
      ghost var start := View();
      ConfirmExecutionStopped(run);
      ghost var before := View();
      steps := RemoveContainers(steps, run);
      Cleared(start, run, before, View());
    }

    // ----- creating and cancelling runs -----

    /** The runs are cancelled in one statement, their pending steps run by run. */
    method SupersedeQueued(repo: RepoId, ref: string, before: Option<nat>) returns (ids: seq<RunId>)
      modifies this`runs, this`steps
      ensures View() == Supersede(old(View()), repo, ref, before)
      ensures Lists(ids, QueuedOf(old(View()), repo, ref, before))
    {
      var rows := set r | r in runs && Superseded(runs[r], repo, ref, before);
      ids := ListRows(rows);
      runs := map r | r in runs :: if r in rows then runs[r].(status := Cancelled) else runs[r];
      ghost var done: set<RunId> := {};
      for i := 0 to |ids|
        invariant done <= rows && forall j :: 0 <= j < i ==> ids[j] in done
        invariant View() == old(View()).(runs := CancelRuns(old(runs), rows), steps := CancelPending(old(steps), done))
      {
        CancelPendingOneMore(old(steps), done, ids[i]);
        steps := CancelPending(steps, {ids[i]});
        done := done + {ids[i]};
      }
      assert done == rows;
      SupersedeRows(old(View()), repo, ref, before, rows);
      assert rows == QueuedOf(old(View()), repo, ref, before);
    }

    method CancelQueuedTx(repo: RepoId, ref: string) returns (ids: seq<RunId>)
      requires Valid()
      modifies this
      ensures workers == old(workers)
      ensures Valid() && Did(old(View()), Step.CancelQueuedTx(repo, ref), View())
      ensures Lists(ids, QueuedOf(old(View()), repo, ref, None))
    {
      ghost var before := View();
      ids := SupersedeQueued(repo, ref, None);
      Advance(before, Step.CancelQueuedTx(repo, ref), View());
    }

    /** `id` and the plan's identifiers are fresh random ones. `wanted` is what planRun
        decided; a repository with 10000 unfinished runs fails the run instead. */
    method CreateTx(id: RunId, wanted: RunRow, plan: seq<NewStep>) returns (outcome: Outcome, row: RunRow)
      requires Valid()
      requires id !in usedRuns && forall i :: 0 <= i < |plan| ==> plan[i].id !in usedSteps
      requires forall i, j :: 0 <= i < j < |plan| ==> plan[i].id != plan[j].id
      requires wanted.status == Queued || wanted.status == Passed || wanted.status == Failed
      modifies this
      ensures workers == old(workers)
      ensures Valid()
      ensures outcome == if wanted.repo in old(counters) then Done else NotFound
      ensures outcome.Done? ==> Did(old(View()), Step.CreateTx(id, row, plan), View())
      ensures outcome.Done? ==>
        row == wanted.(number := row.number, status := row.status, cancelRequested := false, worker := None)
      ensures outcome.Done? ==> RunCreated(old(View()), View(), id, row, plan)
      ensures outcome.Done? ==>
        row.status == if wanted.status == Queued && |QueuedOrRunning(old(runs), wanted.repo)| >= 10000 then Failed else wanted.status
      ensures !outcome.Done? ==> View() == old(View())
    {
      ghost var before := View();
      row := wanted;
      if wanted.repo !in counters {
        return NotFound, wanted;
      }
      var status := wanted.status;
      if status == Queued && |QueuedOrRunning(runs, wanted.repo)| >= 10000 {
        status := Failed;
      }
      var number := counters[wanted.repo] + 1;
      row := wanted.(number := number, status := status, cancelRequested := false, worker := None);
      assert CanCreate(before, id, row, plan);
      CommitRun(id, row, plan);
      outcome := Done;
    }

    method CommitRun(id: RunId, row: RunRow, plan: seq<NewStep>)
      requires Valid() && CanCreate(View(), id, row, plan)
      modifies this
      ensures workers == old(workers)
      ensures Valid() && Did(old(View()), Step.CreateTx(id, row, plan), View())
    {
      ghost var before := View();
      WriteRun(id, row, plan);
      Advance(before, Step.CreateTx(id, row, plan), View());
    }

    method WriteRun(id: RunId, row: RunRow, plan: seq<NewStep>)
      modifies this`runs, this`steps, this`counters, this`usedRuns, this`usedSteps
      ensures View() == Create(old(View()), id, row, plan)
    {
      InsertAll(id, row, plan);
      var superseded := SupersedeQueued(row.repo, row.ref, Some(row.number));
    }

    /** insertRun, then insertStep for every step of the plan. */
    method InsertAll(id: RunId, row: RunRow, plan: seq<NewStep>)
      modifies this`runs, this`steps, this`counters, this`usedRuns, this`usedSteps
      ensures View() == Insert(old(View()), id, row, plan)
    {
      counters := counters[row.repo := row.number];
      runs := runs[id := row];
      usedRuns := usedRuns + {id};
      for i := 0 to |plan|
        invariant steps == AddSteps(old(steps), id, row.status == Queued, plan[..i])
        invariant usedSteps == old(usedSteps) + Ids(plan[..i])
        invariant runs == old(runs)[id := row] && counters == old(counters)[row.repo := row.number]
        invariant usedRuns == old(usedRuns) + {id} && targets == old(targets) && log == old(log)
      {
        var p := plan[i];
        steps := steps[p.id := StepRow(id, p.deploy, if row.status == Queued && p.applies then StepPending else StepSkipped, None, None, false, false)];
        usedSteps := usedSteps + {p.id};
        assert plan[..i + 1][..i] == plan[..i];
        IdsSplit(plan[..i + 1]);
      }
      assert plan[..|plan|] == plan;
    }

    /** A person cancels a run by its number: at once while it is queued, by flagging it
        while it runs. */
    method Cancel(repo: RepoId, number: nat) returns (outcome: Outcome)
      requires Valid()
      modifies this
      ensures workers == old(workers)
      ensures Valid()
      ensures outcome == NotFound <==> !exists r :: r in old(runs) && old(runs)[r].repo == repo && old(runs)[r].number == number
      ensures forall r :: r in old(runs) && old(runs)[r].repo == repo && old(runs)[r].number == number ==>
                if old(runs)[r].status != Queued && old(runs)[r].status != Running then outcome == RunFinished && View() == old(View())
                else outcome == Done && Did(old(View()), CancelTx(r), View())
      ensures outcome == NotFound ==> View() == old(View())
    {
      var found := set r | r in runs && runs[r].repo == repo && runs[r].number == number;
      if found == {} {
        assert forall r :: r in runs && runs[r].repo == repo && runs[r].number == number ==> r in found;
        return NotFound;
      }
      var run :| run in found;
      ghost var before := View();
      NumberIsUnique(before, run);
      if runs[run].status == Queued {
        runs := runs[run := runs[run].(status := Cancelled)];
        steps := Settle(steps, run, StepCancelled, StepCancelled);
        Advance(before, CancelTx(run), View());
        outcome := Done;
      } else if runs[run].status == Running {
        runs := runs[run := runs[run].(cancelRequested := true)];
        Advance(before, CancelTx(run), View());
        outcome := Done;
      } else {
        outcome := RunFinished;
      }
    }

    // ----- executing -----

    /** claimNextRunForRepo: `open` says that neither maintenance nor an unfinished operation
        of the repository forbids it, `locked` which run rows others hold. */
    method ClaimNextRunForRepo(worker: WorkerId, images: set<string>, repo: RepoId, open: bool, locked: set<RunId>)
      returns (claimed: Option<RunId>)
      requires Valid()
      modifies this
      ensures workers == old(workers)
      ensures Valid()
      ensures claimed.Some? <==> open && exists r :: r in old(runs) && Waits(old(runs), repo, images, locked, r)
      ensures claimed.Some? ==>
        FirstInLine(old(runs), repo, images, locked, claimed.value) && Did(old(View()), ClaimTx(claimed.value, worker), View())
      ensures claimed.None? ==> View() == old(View())
    {
      var line := InLine(runs, repo, images, locked);
      if !open || line == {} {
        assert open ==> forall r :: r in runs && Waits(runs, repo, images, locked, r) ==> r in line;
        return None;
      }
      var run := FindFirst(runs, line);
      ghost var before := View();
      runs := runs[run := runs[run].(status := Running, worker := Some(worker))];
      Advance(before, ClaimTx(run, worker), View());
      return Some(run);
    }

    /** claimNextRun: the candidates in the order the query lists them; `gates` are the ones
        whose execution gate can be shared, `open` those where claims are allowed. */
    method ClaimNextRun(worker: WorkerId, images: set<string>, candidates: seq<RepoId>, gates: set<RepoId>, open: set<RepoId>,
                        locked: set<RunId>)
      returns (claimed: Option<RunId>, at: nat)
      requires Valid()
      modifies this
      ensures workers == old(workers)
      ensures Valid()
      ensures claimed.Some? ==> claimed.value in old(runs) && Did(old(View()), ClaimTx(claimed.value, worker), View())
      ensures claimed.Some? ==>
        && at < |candidates| && candidates[at] in gates && candidates[at] in open
        && FirstInLine(old(runs), candidates[at], images, locked, claimed.value)
        && (forall j :: 0 <= j < at ==> !Claimable(old(runs), candidates[j], images, gates, open, locked))
      ensures claimed.None? ==> View() == old(View())
      ensures claimed.None? ==> forall j :: 0 <= j < |candidates| ==> !Claimable(runs, candidates[j], images, gates, open, locked)
    {
      claimed, at := None, 0;
      for i := 0 to |candidates|
        invariant claimed.None? && Valid() && View() == old(View()) && workers == old(workers)
        invariant forall j :: 0 <= j < i ==> !Claimable(runs, candidates[j], images, gates, open, locked)
      {
        var repo := candidates[i];
        if repo in gates {
          claimed := ClaimNextRunForRepo(worker, images, repo, repo in open, locked);
          if claimed.Some? {
            at := i;
            return;
          }
        }
      }
    }

    method StepStarted(step: StepId) returns (outcome: Outcome)
      requires Valid()
      modifies this
      ensures workers == old(workers)
      ensures Valid()
      ensures outcome == if OfActiveRun(old(View()), step) && old(steps)[step].status == StepPending then Done else RunEnded
      ensures if outcome.Done? then Did(old(View()), StepStartedTx(step), View()) else View() == old(View())
    {
      if step in steps && steps[step].status == StepPending
         && steps[step].run in runs && runs[steps[step].run].status == Running && !runs[steps[step].run].cancelRequested {
        ghost var before := View();
        steps := steps[step := steps[step].(status := StepRunning)];
        Advance(before, StepStartedTx(step), View());
        return Done;
      }
      return RunEnded;
    }

    method PlanContainer(run: RunId, step: StepId) returns (outcome: Outcome)
      requires Valid()
      modifies this
      ensures workers == old(workers)
      ensures Valid()
      ensures outcome == if OfActiveRun(old(View()), step) && old(steps)[step].run == run && old(steps)[step].status == StepRunning
                         then Done else RunEnded
      ensures if outcome.Done? then Did(old(View()), PlanContainerTx(run, step), View()) else View() == old(View())
    {
      if step in steps && steps[step].run == run && steps[step].status == StepRunning
         && run in runs && runs[run].status == Running && !runs[run].cancelRequested {
        ghost var before := View();
        steps := steps[step := steps[step].(planned := true)];
        Advance(before, PlanContainerTx(run, step), View());
        return Done;
      }
      return RunEnded;
    }

    /** Acquires the run's target for a deploy step. `expired` says the deadline has passed. */
    method BeginDeployment(run: RunId, step: StepId, expired: bool) returns (outcome: Outcome)
      requires Valid()
      modifies this
      ensures workers == old(workers)
      ensures Valid()
      ensures outcome.Done? <==> !expired && Enabled(old(View()), BeginDeploymentTx(run, step))
      ensures if outcome.Done? then Did(old(View()), BeginDeploymentTx(run, step), View()) else View() == old(View())
      ensures outcome.RunEnded? <==> expired || !Deployable(old(View()), run)
      ensures outcome.NotFound? <==> !outcome.RunEnded? && !(step in old(steps) && old(steps)[step].run == run && old(steps)[step].status == StepRunning)
      ensures outcome.OwnershipLost? <==> !outcome.RunEnded? && !outcome.NotFound? && !old(steps)[step].deploy
      ensures outcome.Overtaken? <==> !expired && MayAsk(old(View()), run, step) && IsOvertaken(old(View()), run)
      ensures outcome.Busy? <==>
        !expired && MayAsk(old(View()), run, step) && !IsOvertaken(old(View()), run) && HeldByOther(old(View()), run, step)
    {
      if run !in runs || runs[run].status != Running || runs[run].cancelRequested || runs[run].target == "" || expired {
        return RunEnded;
      }
      var row := runs[run];
      if step !in steps || steps[step].run != run || steps[step].status != StepRunning {
        return NotFound;
      }
      if !steps[step].deploy {
        return OwnershipLost;
      }
      var key := TargetKey(row.repo, row.target);
      var target := if key in targets then targets[key] else TargetRow(0, 0, None);
      if row.trigger == ByPush && row.number < target.latest {
        return Overtaken;
      }
      if target.owner.Some? && target.owner.value.step != step {
        return Busy;
      }
      ghost var before := View();
      TakeTarget(run, step, key, target);
      Acquired(before, run, step, View());
      Advance(before, BeginDeploymentTx(run, step), View());
      return Done;
    }

    /** The rows BeginDeployment writes once nothing stands in the way. */
    method TakeTarget(run: RunId, step: StepId, key: TargetKey, found: TargetRow)
      requires CanDeploy(View(), run, step) && key == KeyOf(runs[run]) && found == TargetOf(View(), key)
      modifies this`targets, this`steps
      ensures View() == Acquire(old(View()), run, step)
    {
      var target := found;
      if target.owner.None? {
        target := TargetRow(target.generation + 1, target.latest, Some(Owner(run, step)));
      }
      targets := targets[key := target];
      steps := steps[step := steps[step].(generation := Some(target.generation))];
    }

    /** insertDeployment: a second deployment of a step would be dropped. */
    method InsertDeployment(d: Deployment)
      modifies this`log
      ensures log == if exists i :: 0 <= i < |old(log)| && old(log)[i].step == d.step then old(log) else old(log) + [d]
    {
      var i := 0;
      while i < |log|
        invariant i <= |log| && log == old(log)
        invariant forall j :: 0 <= j < i ==> log[j].step != d.step
      {
        if log[i].step == d.step {
          return;
        }
        i := i + 1;
      }
      log := log + [d];
    }

    /** Commits a step's receipt, the deployment it proves and the release of its target.
        A receipt that is no longer awaited is ignored; a deployment is refused unless its
        step still owns the target. */
    method FinishExecutionReceipt(run: RunId, step: StepId, status: StepStatus, code: Option<int>, recovery: bool)
      returns (outcome: Outcome)
      requires Valid()
      modifies this
      ensures workers == old(workers)
      ensures Judged(old(View()), run, step, status, code, recovery, outcome)
      ensures outcome.Done? ==> CanReceive(old(View()), run, step, status, code, recovery)
                                && View() == FinishStep(old(View()), run, step, status, code, recovery)
      ensures outcome.Done? ==> ReceiptTaken(old(View()), View(), run, step, status, code)
      ensures outcome.Done? ==> LeftBy(Owner(run, step), old(targets), targets)
      ensures !outcome.Done? ==> View() == old(View())
    {
      outcome := JudgeReceipt(run, step, status, code, recovery);
      if outcome.Done? {
        CommitReceipt(run, step, status, code, recovery);
      }
    }

    /** The part of finishExecutionReceipt that reads. */
    method JudgeReceipt(run: RunId, step: StepId, status: StepStatus, code: Option<int>, recovery: bool) returns (outcome: Outcome)
      requires Valid()
      ensures Judged(View(), run, step, status, code, recovery, outcome)
      ensures outcome.Done? <==> CanReceive(View(), run, step, status, code, recovery)
    {
      if step !in steps || steps[step].run != run {
        return NotFound;
      }
      var before := steps[step];
      if before.status != StepPending && before.status != StepRunning && (!recovery || before.code.Some?) {
        return Ignored;
      }
      RunExists(View(), step);
      if before.deploy && status == StepPassed {
        if before.generation.None? || code != Some(0) {
          return OwnershipLost;
        }
        if !recovery && runs[run].status != Running {
          return RunEnded;
        }
        var key := TargetKey(runs[run].repo, runs[run].target);
        if key !in targets || targets[key].owner != Some(Owner(run, step)) || targets[key].generation != before.generation.value {
          return OwnershipLost;
        }
      }
      return Done;
    }

    /** The rows finishExecutionReceipt writes for an accepted receipt. */
    method CommitReceipt(run: RunId, step: StepId, status: StepStatus, code: Option<int>, ghost recovery: bool)
      requires Valid() && CanReceive(View(), run, step, status, code, recovery)
      modifies this`steps, this`targets, this`log
      ensures View() == FinishStep(old(View()), run, step, status, code, recovery)
      ensures ReceiptTaken(old(View()), View(), run, step, status, code) && LeftBy(Owner(run, step), old(targets), targets)
    {
      ReachableInv(View());
      ReceiptMeans(View(), run, step, status, code, recovery);
      WriteReceipt(run, step, status, code, recovery);
    }

    method WriteReceipt(run: RunId, step: StepId, status: StepStatus, code: Option<int>, ghost recovery: bool)
      requires Valid() && CanReceive(View(), run, step, status, code, recovery)
      modifies this`steps, this`targets, this`log
      ensures View() == FinishStep(old(View()), run, step, status, code, recovery)
    {
      var before := steps[step];
      if before.deploy && status == StepPassed {
        var row := runs[run];
        var key := TargetKey(row.repo, row.target);
        NotYetRecorded(View(), run, step);
        InsertDeployment(Deployment(key, run, step, row.number, row.trigger, targets[key].generation));
        targets := targets[key := targets[key].(latest := Max(targets[key].latest, row.number))];
      }
      steps := steps[step := before.(status := status, code := code)];
      if before.deploy && before.generation.Some? {
        targets := ClearOwner(targets, Owner(run, step), before.generation.value);
      }
    }

    /** The tables stay sound for the final statuses that workers report. */
    method StepFinished(run: RunId, step: StepId, status: StepStatus, code: Option<int>) returns (outcome: Outcome)
      requires Valid()
      modifies this
      ensures workers == old(workers)
      ensures Final(status) ==> Valid()
      ensures Judged(old(View()), run, step, status, code, false, outcome)
      ensures outcome.Done? ==> CanReceive(old(View()), run, step, status, code, false)
                                && View() == FinishStep(old(View()), run, step, status, code, false)
      ensures outcome.Done? ==> ReceiptTaken(old(View()), View(), run, step, status, code)
      ensures outcome.Done? && Final(status) ==> Did(old(View()), StepFinishedTx(run, step, status, code), View())
      ensures !outcome.Done? ==> View() == old(View())
    {
      ghost var before := View();
      outcome := FinishExecutionReceipt(run, step, status, code, false);
      if outcome.Done? && Final(status) {
        Advance(before, StepFinishedTx(run, step, status, code), View());
      }
    }

    /** The daemon kept an exit code the worker never reported. */
    method RecoverStepExit(run: RunId, step: StepId, exit: int) returns (outcome: Outcome)
      requires Valid()
      modifies this
      ensures workers == old(workers)
      ensures Valid()
      ensures if outcome.Done? then Did(old(View()), RecoverStepExitTx(run, step, exit), View()) else View() == old(View())
      ensures Judged(old(View()), run, step, if exit == 0 then StepPassed else StepFailed, Some(exit), true, outcome)
      ensures step in old(steps) && old(steps)[step].code.Some? ==> !outcome.Done?
    {
      var status := if exit == 0 then StepPassed else StepFailed;
      ghost var before := View();
      CodeIsFinal(before, step);
      outcome := FinishExecutionReceipt(run, step, status, Some(exit), true);
      if outcome.Done? {
        Advance(before, RecoverStepExitTx(run, step, exit), View());
      }
    }

    /** A run that is no longer running is left as it is; the tables stay sound for the
        statuses a run ends with. */
    method Finish(run: RunId, status: RunStatus) returns (outcome: Outcome)
      requires Valid()
      modifies this
      ensures workers == old(workers)
      ensures Ended(status) ==> Valid()
      ensures outcome == if run in old(runs) && old(runs)[run].status == Running then Done else Ignored
      ensures outcome.Done? ==> RunDone(old(View()), View(), run, status)
      ensures outcome.Done? ==> CanEnd(old(View()), run) && View() == CiTables.Finish(old(View()), run, status)
      ensures outcome.Done? && Ended(status) ==> Did(old(View()), FinishTx(run, status), View())
      ensures !outcome.Done? ==> View() == old(View())
    {
      ghost var before := View();
      var ended := EndRun(run, status);
      if !ended {
        return Ignored;
      }
      FinishMeans(before, run, status);
      if Ended(status) {
        Finished(before, run, status, View());
        Advance(before, FinishTx(run, status), View());
      }
      return Done;
    }

    /** The transaction of Finish. */
    method EndRun(run: RunId, status: RunStatus) returns (ended: bool)
      modifies this`runs, this`steps
      ensures ended == CanEnd(old(View()), run)
      ensures ended ==> CanEnd(old(View()), run) && View() == CiTables.Finish(old(View()), run, status)
      ensures !ended ==> View() == old(View())
    {
      var runningBecomes, pendingBecomes := StepFailed, StepSkipped;
      if status == Cancelled {
        runningBecomes, pendingBecomes := StepCancelled, StepCancelled;
      }
      ended := FinishRunRow(run, status);
      if ended {
        steps := Settle(steps, run, runningBecomes, pendingBecomes);
      }
    }

    // ----- lost workers -----

    /** `stale` holds the workers whose heartbeat is too old, `locked` the runs another
        transaction has locked. */
    method FailLostRuns(stale: set<WorkerId>, locked: set<RunId>) returns (lost: seq<RunId>)
      requires Valid()
      modifies this
      ensures workers == old(workers)
      ensures Valid() && Did(old(View()), FailLostTx(lost), View())
      ensures forall r :: r in lost <==>
                && r in old(runs) && old(runs)[r].status == Running && r !in locked && old(runs)[r].worker.Some?
                && var w := old(runs)[r].worker.value; w in workers && (workers[w].stopped || w in stale)
      ensures Lists(lost, LostRuns(old(runs), Gone(workers, stale), locked))
      ensures targets == old(targets) && log == old(log)
      ensures runs == FailRuns(old(runs), LostRuns(old(runs), Gone(workers, stale), locked))
    {
      ghost var before := View();
      var rows := LostRuns(runs, Gone(workers, stale), locked);
      lost := ListRows(rows);
      FailAll(lost, rows);
      Advance(before, FailLostTx(lost), View());
    }

    method FailAll(lost: seq<RunId>, rows: set<RunId>)
      requires Lists(lost, rows) && forall r :: r in rows ==> r in runs && runs[r].status == Running
      modifies this`runs, this`steps
      ensures View() == FailLost(old(View()), lost) && runs == FailRuns(old(runs), rows)
    {
      ghost var before := View();
      ghost var done: set<RunId> := {};
      FailRunsNone(runs);
      for i := 0 to |lost|
        invariant done <= rows && forall j :: 0 <= j < |lost| ==> (lost[j] in done <==> j < i)
        invariant View() == FailLost(before, lost[..i]) && runs == FailRuns(before.runs, done)
      {
        FailLostOneMore(before, lost, i, done, View());
        var found := FinishRunRow(lost[i], Failed);
        steps := Settle(steps, lost[i], StepFailed, StepSkipped);
        done := done + {lost[i]};
      }
      assert done == rows;
      assert lost[..|lost|] == lost;
    }

    method FailStopped(run: RunId)
      requires CanFinish(View(), run, Failed)
      modifies this`runs, this`steps, this`targets
      ensures View() == ConfirmStopped(CiTables.Finish(old(View()), run, Failed), run)
    {
      var found := FinishRunRow(run, Failed);
      steps := Settle(steps, run, StepFailed, StepSkipped);
      ConfirmExecutionStoppedTx(run);
    }

    /** One run of a worker that is gone; `running` is its status as the query found it. */
    method ReleaseOne(run: RunId, running: bool)
      requires running == CanFinish(View(), run, Failed)
      modifies this`runs, this`steps, this`targets
      ensures View() == ReleaseRun(old(View()), run)
    {
      if running {
        FailStopped(run);
      }
      steps := RemoveContainers(steps, run);
    }

    method ReleaseAll(ids: seq<RunId>, found: map<RunId, RunRow>)
      requires found == runs && (forall i :: 0 <= i < |ids| ==> ids[i] in runs)
      requires forall i, j :: 0 <= i < j < |ids| ==> ids[i] != ids[j]
      modifies this`runs, this`steps, this`targets
      ensures View() == ReleaseRuns(old(View()), ids)
    {
      ghost var before := View();
      for i := 0 to |ids|
        invariant View() == ReleaseRuns(before, ids[..i])
        invariant runs.Keys == found.Keys && forall j :: i <= j < |ids| ==> runs[ids[j]] == found[ids[j]]
      {
        ReleaseRunsOneMore(before, ids, i);
        ReleaseRunChangesOne(View(), ids[i]);
        ReleaseOne(ids[i], found[ids[i]].status == Running);
      }
      assert ids[..|ids|] == ids;
    }

    method ReleaseStranded(worker: WorkerId, only: Option<RunId>, ids: seq<RunId>)
      requires forall i :: 0 <= i < |ids| ==> ids[i] in runs
      requires forall i, j :: 0 <= i < j < |ids| ==> ids[i] != ids[j]
      modifies this
      ensures workers == old(workers)
      ensures View() == ReleaseWorker(old(View()), worker, only, ids)
    {
      var found := runs;
      ReleaseAll(ids, found);
      targets := ReleaseOwners(targets, OfWorker(found, worker, only));
    }

    method ReleaseFound(worker: WorkerId, only: Option<RunId>, ids: seq<RunId>)
      requires Valid() && CanReleaseWorker(View(), worker, only, ids)
      requires forall i, j :: 0 <= i < j < |ids| ==> ids[i] != ids[j]
      modifies this
      ensures workers == old(workers)
      ensures Valid() && Did(old(View()), ReleaseWorkerTx(worker, only, ids), View()) && NothingLeft(View(), worker, only)
    {
      ghost var before := View();
      WorkerIsReleased(before, worker, only, ids);
      StrandedExist(before, worker, only, ids);
      ReleaseStranded(worker, only, ids);
      Advance(before, ReleaseWorkerTx(worker, only, ids), View());
    }

    /** An operator asserts that the worker is gone for good. `beating` says that its last
        heartbeat is recent. */
    method ReleaseLostWorker(worker: WorkerId, beating: bool, only: Option<RunId>) returns (outcome: Outcome, released: seq<RunId>)
      requires Valid()
      modifies this
      ensures Valid()
      ensures outcome == if worker !in old(workers) then NotFound
                         else if !old(workers)[worker].stopped && beating then WorkerAlive
                         else if only.Some? && !Stranded(old(View()), worker, only, only.value) then NotFound
                         else Done
      ensures if outcome.Done? then Did(old(View()), ReleaseWorkerTx(worker, only, released), View()) else View() == old(View())
      ensures workers == if outcome.Done? then old(workers)[worker := WorkerRow(true, false, 0)] else old(workers)
      ensures outcome.Done? ==> Lists(released, StrandedRuns(old(View()), worker, only))
      ensures outcome.Done? ==> NothingLeft(View(), worker, only)
    {
      if worker !in workers {
        return NotFound, [];
      }
      if !workers[worker].stopped && beating {
        return WorkerAlive, [];
      }
      released := ListRows(StrandedRuns(View(), worker, only));
      OnlyStranded(View(), worker, only, released);
      if only.Some? && |released| == 0 {
        return NotFound, [];
      }
      ReleaseFound(worker, only, released);
      workers := workers[worker := WorkerRow(true, false, 0)];
      outcome := Done;
    }
  }

  /** No target is the owner's any more, and no target of another owner has changed. */
  ghost predicate LeftBy(owner: Owner, before: map<TargetKey, TargetRow>, after: map<TargetKey, TargetRow>) {
    && after.Keys == before.Keys
    && (forall k :: k in after ==> after[k].owner != Some(owner))
    && (forall k :: k in before && before[k].owner != Some(owner) ==> after[k] == before[k])
  }

  /** A running run that deploys somewhere and that nobody asked to cancel. */
  ghost predicate Deployable(db: Db, run: RunId) {
    run in db.runs && db.runs[run].status == Running && !db.runs[run].cancelRequested && db.runs[run].target != ""
  }

  /** Such a run, and one of its running deploy steps. */
  ghost predicate MayAsk(db: Db, run: RunId, step: StepId) {
    && Deployable(db, run)
    && step in db.steps && db.steps[step].run == run && db.steps[step].status == StepRunning && db.steps[step].deploy
  }

  /** A newer run has deployed the target. */
  ghost predicate IsOvertaken(db: Db, run: RunId)
    requires run in db.runs
  {
    var key := TargetKey(db.runs[run].repo, db.runs[run].target);
    db.runs[run].trigger == ByPush && key in db.targets && db.runs[run].number < db.targets[key].latest
  }

  ghost predicate HeldByOther(db: Db, run: RunId, step: StepId)
    requires run in db.runs
  {
    var key := TargetKey(db.runs[run].repo, db.runs[run].target);
    key in db.targets && db.targets[key].owner.Some? && db.targets[key].owner.value.step != step
  }

  /** Which outcome a receipt has. One that is still awaited is accepted unless it says that
      a deployment passed: that needs exit code 0, a run that still runs, and the target. */
  ghost predicate Judged(db: Db, run: RunId, step: StepId, status: StepStatus, code: Option<int>, recovery: bool, outcome: Outcome) {
    var known := step in db.steps && db.steps[step].run == run;
    var awaited := known && (db.steps[step].status == StepPending || db.steps[step].status == StepRunning
                             || (recovery && db.steps[step].code.None?));
    var deployed := awaited && db.steps[step].deploy && status == StepPassed;
    var proven := deployed && db.steps[step].generation.Some? && code == Some(0);
    var inTime := recovery || (run in db.runs && db.runs[run].status == Running);
    && (outcome.NotFound? <==> !known)
    && (outcome.Ignored? <==> known && !awaited)
    && (outcome.RunEnded? <==> proven && !inTime)
    && (outcome.OwnershipLost? <==> deployed && (proven ==> inTime && !OwnsStill(db, run, step)))
    && (outcome.Done? <==> awaited && (deployed ==> proven && inTime && OwnsStill(db, run, step)))
  }

  /** The target of the run is owned by the step under the generation the step was given. */
  ghost predicate OwnsStill(db: Db, run: RunId, step: StepId) {
    && run in db.runs && step in db.steps
    && var key := TargetKey(db.runs[run].repo, db.runs[run].target);
    key in db.targets && db.targets[key].owner == Some(Owner(run, step)) && Some(db.targets[key].generation) == db.steps[step].generation
  }

  /** A queued run of the repository whose images the worker has and which nobody locks. */
  predicate Waits(runs: map<RunId, RunRow>, repo: RepoId, images: set<string>, locked: set<RunId>, run: RunId)
    requires run in runs
  {
    runs[run].status == Queued && runs[run].repo == repo && runs[run].images <= images && run !in locked
  }

  predicate Sooner(a: RunId, x: RunRow, b: RunId, y: RunRow) {
    x.queuedAt < y.queuedAt || (x.queuedAt == y.queuedAt && a < b)
  }

  function InLine(runs: map<RunId, RunRow>, repo: RepoId, images: set<string>, locked: set<RunId>): set<RunId> {
    set r | r in runs && Waits(runs, repo, images, locked, r)
  }

  /** No run that waits was queued earlier, nor at the same time under a smaller identifier. */
  ghost predicate FirstInLine(runs: map<RunId, RunRow>, repo: RepoId, images: set<string>, locked: set<RunId>, run: RunId) {
    && run in runs
    && runs[run].status == Queued && runs[run].repo == repo && runs[run].images <= images && run !in locked
    && (forall r :: r in runs && runs[r].status == Queued && runs[r].repo == repo && runs[r].images <= images && r !in locked ==>
          runs[run].queuedAt < runs[r].queuedAt || (runs[run].queuedAt == runs[r].queuedAt && run <= r))
  }

  /** A repository from which a run can be claimed. */
  predicate Claimable(runs: map<RunId, RunRow>, repo: RepoId, images: set<string>, gates: set<RepoId>, open: set<RepoId>,
                      locked: set<RunId>)
  {
    repo in gates && repo in open && InLine(runs, repo, images, locked) != {}
  }

  /** The query's ORDER BY queued_at, id LIMIT 1. */
  method FindFirst(runs: map<RunId, RunRow>, line: set<RunId>) returns (first: RunId)
    requires line != {} && forall r :: r in line ==> r in runs
    ensures first in line && forall r :: r in line && r != first ==> Sooner(first, runs[first], r, runs[r])
  {
    first :| first in line;
    var rest := line - {first};
    while rest != {}
      invariant rest <= line && first in line && first !in rest
      invariant forall r :: r in line && r != first && r !in rest ==> Sooner(first, runs[first], r, runs[r])
      decreases rest
    {
      var r :| r in rest;
      rest := rest - {r};
      if Sooner(r, runs[r], first, runs[first]) {
        first := r;
      }
    }
  }

  function StrandedRuns(db: Db, worker: WorkerId, only: Option<RunId>): set<RunId> {
    set r | r in db.runs && Stranded(db, worker, only, r)
  }

  lemma OnlyStranded(db: Db, worker: WorkerId, only: Option<RunId>, runs: seq<RunId>)
    requires Lists(runs, StrandedRuns(db, worker, only))
    ensures only.Some? ==> (runs == [] <==> !Stranded(db, worker, only, only.value))
    ensures only.None? || runs != [] ==> CanReleaseWorker(db, worker, only, runs)
    ensures forall i :: 0 <= i < |runs| ==> runs[i] in db.runs
  {
    assert runs != [] ==> Stranded(db, worker, only, runs[0]);
    forall r | r in db.runs && Stranded(db, worker, only, r) ensures r in runs {
      assert r in StrandedRuns(db, worker, only);
    }
    assert only.Some? && Stranded(db, worker, only, only.value) ==> only.value in runs;
  }

  lemma StrandedExist(db: Db, worker: WorkerId, only: Option<RunId>, runs: seq<RunId>)
    requires CanReleaseWorker(db, worker, only, runs)
    ensures forall i :: 0 <= i < |runs| ==> runs[i] in db.runs
  {
    forall i | 0 <= i < |runs| ensures runs[i] in db.runs {
      assert Stranded(db, worker, only, runs[i]);
    }
  }

  lemma ReleaseRunsOneMore(db: Db, runs: seq<RunId>, i: nat)
    requires i < |runs|
    ensures ReleaseRuns(db, runs[..i + 1]) == ReleaseRun(ReleaseRuns(db, runs[..i]), runs[i])
  {
    assert runs[..i + 1][..i] == runs[..i];
  }

  lemma ReleaseRunChangesOne(db: Db, run: RunId)
    ensures ReleaseRun(db, run).runs.Keys == db.runs.Keys
    ensures forall r :: r in db.runs && r != run ==> ReleaseRun(db, run).runs[r] == db.runs[r]
    ensures forall r :: r in db.runs ==> ReleaseRun(db, run).runs[r].worker == db.runs[r].worker
  {
  }

  /** Neither a running run, nor a container, nor a target is left to the worker. */
  ghost predicate NothingLeft(db: Db, worker: WorkerId, only: Option<RunId>) {
    forall r :: r in db.runs && db.runs[r].worker == Some(worker) && (only.Some? ==> r == only.value) ==>
      Settled(db, r) && !OwnsTarget(db, r)
  }

  ghost predicate Settled(db: Db, run: RunId) {
    run in db.runs && db.runs[run].status != Running && !HasContainer(db, run)
  }

  lemma ReleaseRunSettles(db: Db, run: RunId)
    requires run in db.runs
    ensures Settled(ReleaseRun(db, run), run)
  {
  }

  lemma ReleaseRunKeepsSettled(db: Db, run: RunId, settled: RunId)
    requires Settled(db, settled)
    ensures Settled(ReleaseRun(db, run), settled)
  {
    forall s | s in db.steps && db.steps[s].run == settled && db.steps[s].planned ensures ReleaseRun(db, run).steps[s].removed {
      assert db.steps[s].removed;
    }
  }

  lemma {:induction false} ReleaseRunsSettle(db: Db, runs: seq<RunId>, run: RunId)
    requires run in db.runs && (run in runs || Settled(db, run))
    ensures Settled(ReleaseRuns(db, runs), run)
    ensures ReleaseRuns(db, runs).runs.Keys == db.runs.Keys && ReleaseRuns(db, runs).runs[run].worker == db.runs[run].worker
  {
    if runs != [] {
      var front, last := runs[..|runs| - 1], runs[|runs| - 1];
      ReleaseRunsWorkers(db, front);
      if run == last {
        ReleaseRunSettles(ReleaseRuns(db, front), run);
      } else {
        ReleaseRunsSettle(db, front, run);
        ReleaseRunKeepsSettled(ReleaseRuns(db, front), last, run);
      }
      ReleaseRunChangesOne(ReleaseRuns(db, front), last);
    }
  }

  lemma {:induction false} ReleaseRunsWorkers(db: Db, runs: seq<RunId>)
    ensures ReleaseRuns(db, runs).runs.Keys == db.runs.Keys
    ensures forall r :: r in db.runs ==> ReleaseRuns(db, runs).runs[r].worker == db.runs[r].worker
  {
    if runs != [] {
      ReleaseRunsWorkers(db, runs[..|runs| - 1]);
      ReleaseRunChangesOne(ReleaseRuns(db, runs[..|runs| - 1]), runs[|runs| - 1]);
    }
  }

  /** Releasing a lost worker leaves it nothing. */
  lemma WorkerIsReleased(db: Db, worker: WorkerId, only: Option<RunId>, runs: seq<RunId>)
    requires CanReleaseWorker(db, worker, only, runs)
    ensures NothingLeft(ReleaseWorker(db, worker, only, runs), worker, only)
  {
    var released, after := ReleaseRuns(db, runs), ReleaseWorker(db, worker, only, runs);
    ReleaseRunsWorkers(db, runs);
    forall r | r in after.runs && after.runs[r].worker == Some(worker) && (only.Some? ==> r == only.value)
      ensures Settled(after, r) && !OwnsTarget(after, r)
    {
      assert r in db.runs && (r in runs || Settled(db, r));
      ReleaseRunsSettle(db, runs, r);
      assert Settled(released, r);
    }
  }

  /** Workers that stopped or went silent. */
  function Gone(workers: map<WorkerId, WorkerRow>, stale: set<WorkerId>): set<WorkerId> {
    set w | w in workers && (workers[w].stopped || w in stale)
  }

  function LostRuns(runs: map<RunId, RunRow>, gone: set<WorkerId>, locked: set<RunId>): set<RunId> {
    set r | r in runs && runs[r].status == Running && runs[r].worker.Some? && runs[r].worker.value in gone && r !in locked
  }

  function CancelPending(steps: map<StepId, StepRow>, runs: set<RunId>): map<StepId, StepRow> {
    map s | s in steps ::
      if steps[s].run in runs && steps[s].status == StepPending then steps[s].(status := StepCancelled) else steps[s]
  }

  ghost function FailRuns(runs: map<RunId, RunRow>, failed: set<RunId>): map<RunId, RunRow> {
    map r | r in runs :: if r in failed then runs[r].(status := Failed) else runs[r]
  }

  ghost function CancelRuns(runs: map<RunId, RunRow>, rows: set<RunId>): map<RunId, RunRow> {
    map r | r in runs :: if r in rows then runs[r].(status := Cancelled) else runs[r]
  }

  lemma CancelPendingOneMore(steps: map<StepId, StepRow>, done: set<RunId>, run: RunId)
    ensures CancelPending(CancelPending(steps, done), {run}) == CancelPending(steps, done + {run})
  {
  }

  /** Cancelling the rows of the first statement is the whole supersession. */
  lemma SupersedeRows(db: Db, repo: RepoId, ref: string, before: Option<nat>, rows: set<RunId>)
    requires rows == set r | r in db.runs && Superseded(db.runs[r], repo, ref, before)
    ensures Supersede(db, repo, ref, before) == db.(runs := CancelRuns(db.runs, rows), steps := CancelPending(db.steps, rows))
  {
  }

  lemma FailRunsNone(runs: map<RunId, RunRow>)
    ensures FailRuns(runs, {}) == runs
  {
  }

  lemma FailLostOneMore(db: Db, lost: seq<RunId>, i: nat, done: set<RunId>, mid: Db)
    requires i < |lost| && mid == FailLost(db, lost[..i]) && mid.runs == FailRuns(db.runs, done)
    requires lost[i] in db.runs && db.runs[lost[i]].status == Running && lost[i] !in done
    ensures CanFinish(mid, lost[i], Failed) && FailLost(db, lost[..i + 1]) == CiTables.Finish(mid, lost[i], Failed)
    ensures FailLost(db, lost[..i + 1]).runs == FailRuns(db.runs, done + {lost[i]})
  {
    assert lost[..i + 1][..i] == lost[..i];
  }

  function QueuedOrRunning(runs: map<RunId, RunRow>, repo: RepoId): (open: set<RunId>)
    ensures forall r :: r in open <==> r in runs && runs[r].repo == repo && (runs[r].status == Queued || runs[r].status == Running)
  {
    set r | r in runs && runs[r].repo == repo && !Ended(runs[r].status)
  }

  lemma IdsSplit(plan: seq<NewStep>)
    requires plan != []
    ensures Ids(plan) == Ids(plan[..|plan| - 1]) + {plan[|plan| - 1].id}
  {
    var front := plan[..|plan| - 1];
    forall i | 0 <= i < |plan| ensures plan[i].id in Ids(front) + {plan[|plan| - 1].id} {
      assert i < |front| ==> front[i] == plan[i];
    }
    forall i | 0 <= i < |front| ensures front[i].id in Ids(plan) {
      assert front[i] == plan[i];
    }
  }

  lemma Cleared(start: Db, run: RunId, before: Db, after: Db)
    requires Reachable(before) && before == ConfirmStopped(start, run)
    requires after == before.(steps := RemoveContainers(before.steps, run))
    ensures Reachable(after) && !HasContainer(after, run) && !OwnsTarget(after, run)
  {
    Advance(before, ContainersRemovedTx(run), after);
  }

  lemma Finished(before: Db, run: RunId, status: RunStatus, after: Db)
    requires CanFinish(before, run, status) && after == CiTables.Finish(before, run, status)
    ensures Enabled(before, FinishTx(run, status)) && after == Effect(before, FinishTx(run, status))
  {
  }

  lemma Acquired(before: Db, run: RunId, step: StepId, after: Db)
    requires CanDeploy(before, run, step) && after == Acquire(before, run, step)
    ensures Enabled(before, BeginDeploymentTx(run, step)) && after == Effect(before, BeginDeploymentTx(run, step))
  {
  }

  /** The owner of a target has no deployment on record, so the insert is never dropped. */
  lemma NotYetRecorded(db: Db, run: RunId, step: StepId)
    requires Reachable(db) && Owns(db, run, step)
    ensures forall i :: 0 <= i < |db.log| ==> db.log[i].step != step
  {
    ReachableInv(db);
    var key := KeyOf(db.runs[run]);
    assert Legitimate(db.runs, db.steps, key, db.targets[key]);
  }
}
