/** The tables of internal/ci and the transactions that change them. Each transaction is
    one atomic step; clocks and heartbeats are arbitrary. */
module CiTables {
  import opened Options

  type RepoId = nat
  type RunId = nat
  type StepId = nat
  type WorkerId = nat

  datatype RunStatus = Queued | Running | Passed | Failed | Cancelled

  datatype StepStatus = StepPending | StepRunning | StepPassed | StepFailed | StepSkipped | StepCancelled

  datatype Trigger = ByPush | Manual

  /** `target` is empty for a run that deploys nowhere; `images` are the ones its worker must have. */
  datatype RunRow = RunRow(repo: RepoId, ref: string, number: nat, trigger: Trigger, target: string, status: RunStatus,
                           cancelRequested: bool, worker: Option<WorkerId>, queuedAt: int, images: set<string>)

  datatype StepRow = StepRow(run: RunId, deploy: bool, status: StepStatus, code: Option<int>, generation: Option<nat>,
                             planned: bool, removed: bool)

  datatype Owner = Owner(run: RunId, step: StepId)

  datatype TargetRow = TargetRow(generation: nat, latest: nat, owner: Option<Owner>)

  datatype TargetKey = TargetKey(repo: RepoId, target: string)

  /** A recorded deployment, with what held when it was recorded. */
  datatype Deployment = Deployment(key: TargetKey, run: RunId, step: StepId, number: nat, trigger: Trigger, generation: nat)

  /** `log` lists every deployment ever recorded, in order; `usedRuns` and `usedSteps` every
      identifier ever given out. */
  datatype Db = Db(runs: map<RunId, RunRow>, steps: map<StepId, StepRow>, targets: map<TargetKey, TargetRow>,
                   counters: map<RepoId, nat>, log: seq<Deployment>, usedRuns: set<RunId>, usedSteps: set<StepId>)

  predicate Ended(status: RunStatus) {
    status == Passed || status == Failed || status == Cancelled
  }

  predicate Open(status: StepStatus) {
    status == StepPending || status == StepRunning
  }

  predicate Final(status: StepStatus) {
    !Open(status)
  }

  function KeyOf(run: RunRow): TargetKey {
    TargetKey(run.repo, run.target)
  }

  // ----- statements -----

  /** settleOpenSteps */
  function Settle(steps: map<StepId, StepRow>, run: RunId, runningBecomes: StepStatus, pendingBecomes: StepStatus): map<StepId, StepRow> {
    map s | s in steps ::
      if steps[s].run == run && Open(steps[s].status)
      then steps[s].(status := if steps[s].status == StepRunning then runningBecomes else pendingBecomes)
      else steps[s]
  }

  /** Runs supersedeQueued cancels: queued runs of the ref numbered below `before`. */
  predicate Superseded(run: RunRow, repo: RepoId, ref: string, before: Option<nat>) {
    run.repo == repo && run.ref == ref && run.status == Queued && (before.Some? ==> run.number < before.value)
  }

  function Supersede(db: Db, repo: RepoId, ref: string, before: Option<nat>): Db {
    var runs := map r | r in db.runs ::
      if Superseded(db.runs[r], repo, ref, before) then db.runs[r].(status := Cancelled) else db.runs[r];
    var steps := map s | s in db.steps ::
      if db.steps[s].run in db.runs && Superseded(db.runs[db.steps[s].run], repo, ref, before) && db.steps[s].status == StepPending
      then db.steps[s].(status := StepCancelled) else db.steps[s];
    db.(runs := runs, steps := steps)
  }

  /** Clears every owner whose run is gone. */
  function ReleaseOwners(targets: map<TargetKey, TargetRow>, gone: set<RunId>): map<TargetKey, TargetRow> {
    map k | k in targets ::
      if targets[k].owner.Some? && targets[k].owner.value.run in gone then targets[k].(owner := None) else targets[k]
  }

  function FailDeploySteps(steps: map<StepId, StepRow>, run: RunId): map<StepId, StepRow> {
    map s | s in steps ::
      if steps[s].run == run && steps[s].deploy && steps[s].status == StepRunning
      then steps[s].(status := StepFailed) else steps[s]
  }

  function RemoveContainers(steps: map<StepId, StepRow>, run: RunId): map<StepId, StepRow> {
    map s | s in steps :: if steps[s].run == run && steps[s].planned then steps[s].(removed := true) else steps[s]
  }

  predicate HasContainer(db: Db, run: RunId) {
    exists s :: s in db.steps && db.steps[s].run == run && db.steps[s].planned && !db.steps[s].removed
  }

  predicate OwnsTarget(db: Db, run: RunId) {
    exists k :: k in db.targets && db.targets[k].owner.Some? && db.targets[k].owner.value.run == run
  }

  // ----- transactions -----

  /** CreateTx: a new run, its steps, and the supersession of older queued runs of its ref.
      `plan` gives each step's identifier, whether it deploys, and whether it applies. */
  datatype NewStep = NewStep(id: StepId, deploy: bool, applies: bool)

  function Ids(plan: seq<NewStep>): set<StepId> {
    set i | 0 <= i < |plan| :: plan[i].id
  }

  /** `row` is the new run under the number allocateRunNumber hands out. */
  predicate CanCreate(db: Db, id: RunId, row: RunRow, plan: seq<NewStep>) {
    && id !in db.usedRuns && row.repo in db.counters && row.number == db.counters[row.repo] + 1
    && (row.status == Queued || row.status == Passed || row.status == Failed)
    && !row.cancelRequested && row.worker.None?
    && (forall i :: 0 <= i < |plan| ==> plan[i].id !in db.usedSteps)
    && (forall i, j :: 0 <= i < j < |plan| ==> plan[i].id != plan[j].id)
  }

  function AddSteps(steps: map<StepId, StepRow>, run: RunId, queued: bool, plan: seq<NewStep>): map<StepId, StepRow> {
    if plan == [] then steps
    else
      var p := plan[|plan| - 1];
      AddSteps(steps, run, queued, plan[..|plan| - 1])
        [p.id := StepRow(run, p.deploy, if queued && p.applies then StepPending else StepSkipped, None, None, false, false)]
  }

  /** The run and step rows CreateTx inserts. */
  function Insert(db: Db, id: RunId, row: RunRow, plan: seq<NewStep>): Db {
    db.(
      counters := db.counters[row.repo := row.number],
      runs := db.runs[id := row],
      steps := AddSteps(db.steps, id, row.status == Queued, plan),
      usedRuns := db.usedRuns + {id},
      usedSteps := db.usedSteps + Ids(plan))
  }

  function Create(db: Db, id: RunId, row: RunRow, plan: seq<NewStep>): Db {
    Supersede(Insert(db, id, row, plan), row.repo, row.ref, Some(row.number))
  }

  /** ClaimNext's update. */
  predicate CanClaim(db: Db, run: RunId) {
    run in db.runs && db.runs[run].status == Queued
  }

  function Claim(db: Db, run: RunId, worker: WorkerId): Db
    requires CanClaim(db, run)
  {
    db.(runs := db.runs[run := db.runs[run].(status := Running, worker := Some(worker))])
  }

  predicate Active(db: Db, run: RunId) {
    run in db.runs && db.runs[run].status == Running && !db.runs[run].cancelRequested
  }

  predicate CanStartStep(db: Db, step: StepId) {
    step in db.steps && db.steps[step].status == StepPending && Active(db, db.steps[step].run)
  }

  function StartStep(db: Db, step: StepId): Db
    requires CanStartStep(db, step)
  {
    db.(steps := db.steps[step := db.steps[step].(status := StepRunning)])
  }

  predicate RunningStepOf(db: Db, run: RunId, step: StepId) {
    step in db.steps && db.steps[step].run == run && db.steps[step].status == StepRunning
  }

  function TargetOf(db: Db, key: TargetKey): TargetRow {
    if key in db.targets then db.targets[key] else TargetRow(0, 0, None)
  }

  /** BeginDeployment acquires the target unless a newer run deployed it or another step owns it. */
  predicate CanDeploy(db: Db, run: RunId, step: StepId) {
    && Active(db, run) && db.runs[run].target != ""
    && RunningStepOf(db, run, step) && db.steps[step].deploy
    && var row := TargetOf(db, KeyOf(db.runs[run]));
    && !(db.runs[run].trigger == ByPush && db.runs[run].number < row.latest)
    && (row.owner.None? || row.owner.value.step == step)
  }

  function Acquire(db: Db, run: RunId, step: StepId): Db
    requires CanDeploy(db, run, step)
  {
    var key := KeyOf(db.runs[run]);
    var row := TargetOf(db, key);
    var taken := if row.owner.None? then TargetRow(row.generation + 1, row.latest, Some(Owner(run, step))) else row;
    db.(targets := db.targets[key := taken], steps := db.steps[step := db.steps[step].(generation := Some(taken.generation))])
  }

  predicate Owns(db: Db, run: RunId, step: StepId) {
    run in db.runs && step in db.steps && db.steps[step].generation.Some?
    && var key := KeyOf(db.runs[run]);
    key in db.targets && db.targets[key].owner == Some(Owner(run, step)) && db.targets[key].generation == db.steps[step].generation.value
  }

  /** finishExecutionReceipt: whether the receipt is still wanted. */
  predicate Awaited(db: Db, run: RunId, step: StepId, recovery: bool) {
    step in db.steps && db.steps[step].run == run
    && (Open(db.steps[step].status) || (recovery && db.steps[step].code.None?))
  }

  predicate Deploys(db: Db, step: StepId, status: StepStatus)
    requires step in db.steps
  {
    db.steps[step].deploy && status == StepPassed
  }

  /** Whether a wanted receipt is accepted: a passed deployment needs exit code 0 and the target. */
  predicate CanReceive(db: Db, run: RunId, step: StepId, status: StepStatus, code: Option<int>, recovery: bool) {
    && Awaited(db, run, step, recovery) && run in db.runs
    && (Deploys(db, step, status) ==>
          code == Some(0) && Owns(db, run, step) && (recovery || db.runs[run].status == Running))
  }

  /** Receipts carry a final status. */
  predicate CanFinishStep(db: Db, run: RunId, step: StepId, status: StepStatus, code: Option<int>, recovery: bool) {
    Final(status) && CanReceive(db, run, step, status, code, recovery)
  }

  function Max(a: nat, b: nat): nat {
    if a > b then a else b
  }

  function ClearOwner(targets: map<TargetKey, TargetRow>, owner: Owner, generation: nat): map<TargetKey, TargetRow> {
    map k | k in targets ::
      if targets[k].owner == Some(owner) && targets[k].generation == generation then targets[k].(owner := None) else targets[k]
  }

  function RecordDeployment(db: Db, run: RunId, step: StepId): Db
    requires Owns(db, run, step)
  {
    var row := db.runs[run];
    var key := KeyOf(row);
    db.(log := db.log + [Deployment(key, run, step, row.number, row.trigger, db.targets[key].generation)],
        targets := db.targets[key := db.targets[key].(latest := Max(db.targets[key].latest, row.number))])
  }

  function FinishStep(db: Db, run: RunId, step: StepId, status: StepStatus, code: Option<int>, recovery: bool): Db
    requires CanReceive(db, run, step, status, code, recovery)
  {
    var before := db.steps[step];
    var recorded := if Deploys(db, step, status) then RecordDeployment(db, run, step) else db;
    var stepped := recorded.(steps := recorded.steps[step := before.(status := status, code := code)]);
    if before.deploy && before.generation.Some?
    then stepped.(targets := ClearOwner(stepped.targets, Owner(run, step), before.generation.value))
    else stepped
  }

  predicate CanEnd(db: Db, run: RunId) {
    run in db.runs && db.runs[run].status == Running
  }

  predicate CanFinish(db: Db, run: RunId, status: RunStatus) {
    CanEnd(db, run) && Ended(status)
  }

  function Finish(db: Db, run: RunId, status: RunStatus): Db
    requires CanEnd(db, run)
  {
    var cancelled := status == Cancelled;
    db.(runs := db.runs[run := db.runs[run].(status := status)],
        steps := Settle(db.steps, run, if cancelled then StepCancelled else StepFailed, if cancelled then StepCancelled else StepSkipped))
  }

  predicate CanCancel(db: Db, run: RunId) {
    run in db.runs && (db.runs[run].status == Queued || db.runs[run].status == Running)
  }

  function Cancel(db: Db, run: RunId): Db
    requires CanCancel(db, run)
  {
    if db.runs[run].status == Queued then
      db.(runs := db.runs[run := db.runs[run].(status := Cancelled)], steps := Settle(db.steps, run, StepCancelled, StepCancelled))
    else
      db.(runs := db.runs[run := db.runs[run].(cancelRequested := true)])
  }

  /** FailLostRuns: fails the given running runs; their target owners stay. */
  function FailLost(db: Db, lost: seq<RunId>): Db
  {
    if lost == [] then db
    else
      var earlier := FailLost(db, lost[..|lost| - 1]);
      var run := lost[|lost| - 1];
      if CanFinish(earlier, run, Failed) then Finish(earlier, run, Failed) else earlier
  }

  function ConfirmStopped(db: Db, run: RunId): Db {
    db.(steps := FailDeploySteps(db.steps, run), targets := ReleaseOwners(db.targets, {run}))
  }

  /** One run of ReleaseLostWorker. */
  function ReleaseRun(db: Db, run: RunId): Db {
    var failed := if CanFinish(db, run, Failed) then ConfirmStopped(Finish(db, run, Failed), run) else db;
    failed.(steps := RemoveContainers(failed.steps, run))
  }

  function ReleaseRuns(db: Db, runs: seq<RunId>): Db {
    if runs == [] then db else ReleaseRun(ReleaseRuns(db, runs[..|runs| - 1]), runs[|runs| - 1])
  }

  /** The runs of a lost worker that still need releasing. */
  predicate Stranded(db: Db, worker: WorkerId, only: Option<RunId>, run: RunId) {
    run in db.runs && db.runs[run].worker == Some(worker) && (only.Some? ==> run == only.value)
    && (db.runs[run].status == Running || HasContainer(db, run))
  }

  predicate CanReleaseWorker(db: Db, worker: WorkerId, only: Option<RunId>, runs: seq<RunId>) {
    && (forall r :: r in runs ==> Stranded(db, worker, only, r))
    && (forall r :: r in db.runs && Stranded(db, worker, only, r) ==> r in runs)
    && (only.Some? ==> runs != [])
  }

  /** Which runs are the worker's, or the given one of them. */
  function OfWorker(runs: map<RunId, RunRow>, worker: WorkerId, only: Option<RunId>): set<RunId> {
    set r | r in runs && runs[r].worker == Some(worker) && (only.Some? ==> r == only.value)
  }

  function ReleaseWorker(db: Db, worker: WorkerId, only: Option<RunId>, runs: seq<RunId>): Db {
    var released := ReleaseRuns(db, runs);
    released.(targets := ReleaseOwners(released.targets, OfWorker(db.runs, worker, only)))
  }

  predicate CanPlan(db: Db, run: RunId, step: StepId) {
    RunningStepOf(db, run, step) && Active(db, run)
  }

  function Plan(db: Db, step: StepId): Db
    requires step in db.steps
  {
    db.(steps := db.steps[step := db.steps[step].(planned := true)])
  }

  /** Retention deletes ended runs that hold neither containers nor a target. */
  predicate CanPrune(db: Db, run: RunId) {
    run in db.runs && Ended(db.runs[run].status) && !HasContainer(db, run) && !OwnsTarget(db, run)
  }

  function Prune(db: Db, run: RunId): Db {
    db.(runs := db.runs - {run}, steps := map s | s in db.steps && db.steps[s].run != run :: db.steps[s])
  }

  // ----- steps -----

  datatype Step =
    | CreateTx(id: RunId, row: RunRow, plan: seq<NewStep>)
    | CancelQueuedTx(repo: RepoId, ref: string)
    | ClaimTx(run: RunId, worker: WorkerId)
    | StepStartedTx(step: StepId)
    | BeginDeploymentTx(run: RunId, step: StepId)
    | StepFinishedTx(run: RunId, step: StepId, verdict: StepStatus, code: Option<int>)
    | RecoverStepExitTx(run: RunId, step: StepId, exit: int)
    | FinishTx(run: RunId, status: RunStatus)
    | CancelTx(run: RunId)
    | FailLostTx(lost: seq<RunId>)
    | ConfirmStoppedTx(run: RunId)
    | ReleaseWorkerTx(worker: WorkerId, only: Option<RunId>, runs: seq<RunId>)
    | PlanContainerTx(run: RunId, step: StepId)
    | ContainerRemovedTx(step: StepId)
    | ContainersRemovedTx(run: RunId)
    | PruneRunTx(run: RunId)

  function ExitStatus(exit: int): StepStatus {
    if exit == 0 then StepPassed else StepFailed
  }

  predicate Enabled(db: Db, step: Step) {
    match step
    case CreateTx(id, row, plan) => CanCreate(db, id, row, plan)
    case CancelQueuedTx(_, _) => true
    case ClaimTx(run, _) => CanClaim(db, run)
    case StepStartedTx(s) => CanStartStep(db, s)
    case BeginDeploymentTx(run, s) => CanDeploy(db, run, s)
    case StepFinishedTx(run, s, status, code) => CanFinishStep(db, run, s, status, code, false)
    case RecoverStepExitTx(run, s, exit) => CanFinishStep(db, run, s, ExitStatus(exit), Some(exit), true)
    case FinishTx(run, status) => CanFinish(db, run, status)
    case CancelTx(run) => CanCancel(db, run)
    case FailLostTx(_) => true
    case ConfirmStoppedTx(_) => true
    case ReleaseWorkerTx(worker, only, runs) => CanReleaseWorker(db, worker, only, runs)
    case PlanContainerTx(run, s) => CanPlan(db, run, s)
    case ContainerRemovedTx(s) => s in db.steps && db.steps[s].planned
    case ContainersRemovedTx(_) => true
    case PruneRunTx(run) => CanPrune(db, run)
  }

  function Effect(db: Db, step: Step): Db
    requires Enabled(db, step)
  {
    match step
    case CreateTx(id, row, plan) => Create(db, id, row, plan)
    case CancelQueuedTx(repo, ref) => Supersede(db, repo, ref, None)
    case ClaimTx(run, worker) => Claim(db, run, worker)
    case StepStartedTx(s) => StartStep(db, s)
    case BeginDeploymentTx(run, s) => Acquire(db, run, s)
    case StepFinishedTx(run, s, status, code) => FinishStep(db, run, s, status, code, false)
    case RecoverStepExitTx(run, s, exit) => FinishStep(db, run, s, ExitStatus(exit), Some(exit), true)
    case FinishTx(run, status) => Finish(db, run, status)
    case CancelTx(run) => Cancel(db, run)
    case FailLostTx(lost) => FailLost(db, lost)
    case ConfirmStoppedTx(run) => ConfirmStopped(db, run)
    case ReleaseWorkerTx(worker, only, runs) => ReleaseWorker(db, worker, only, runs)
    case PlanContainerTx(_, s) => Plan(db, s)
    case ContainerRemovedTx(s) => db.(steps := db.steps[s := db.steps[s].(removed := true)])
    case ContainersRemovedTx(run) => db.(steps := RemoveContainers(db.steps, run))
    case PruneRunTx(run) => Prune(db, run)
  }
}
