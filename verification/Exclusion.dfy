/** Admission, claims, repository deletion and backup, statement by statement: which locks
    each process holds, and what its open transaction has read or written so far. */
module Exclusion {
  import opened Options
  import opened CiTables
  import opened CiSafety
  import opened Quiet

  type Proc = nat

  /** An unfinished row of repository_operations. */
  datatype Intent = Intent(id: nat, repo: RepoId, delete: bool)

  /** A process holding shared admission. A claim collects shared execution gates until it
      has updated one run, whose row it then holds locked until it commits; a deletion holds
      its repository's gate exclusively. */
  datatype Task =
    | Arriving
    | Admitted
    | Claiming(gates: set<RepoId>, picked: Option<RunId>)
    | Deleting(repo: RepoId, checked: bool)

  /** Who holds exclusive admission. */
  datatype Holder = Pausing(paused: bool) | Lease(ready: bool)

  datatype Sys = Sys(db: Db, pending: set<Intent>, maintenance: bool, tasks: map<Proc, Task>, exclusive: Option<Holder>)

  datatype Event =
    | Arrive(p: Proc)
    | ReadFlag(p: Proc)
    | Leave(p: Proc)
    | StartClaim(p: Proc)
    | TryGate(p: Proc, repo: RepoId)
    | Pick(p: Proc, run: RunId)
    | CommitClaim(p: Proc, worker: WorkerId)
    | StartDelete(p: Proc, repo: RepoId)
    | CheckDelete(p: Proc)
    | CommitDelete(p: Proc, id: nat)
    | Abort(p: Proc)
    | OtherIntent(p: Proc, id: nat, repo: RepoId)
    | Complete(intent: Intent)
    | TakeExclusive(holder: Holder)
    | SetFlag
    | CheckReady
    | ReleaseExclusive
    | Ci(tx: Step)

  predicate HoldsShared(task: Task, repo: RepoId) {
    task.Claiming? && repo in task.gates
  }

  predicate HoldsGate(task: Task, repo: RepoId) {
    task.Deleting? && task.repo == repo
  }

  predicate Picked(task: Task, run: RunId) {
    task.Claiming? && task.picked == Some(run)
  }

  predicate Busy(pending: set<Intent>, repo: RepoId) {
    exists i :: i in pending && i.repo == repo
  }

  /** Whether a transaction leaves alone the rows that open claims hold locked. */
  predicate LeavesLocked(tasks: map<Proc, Task>, runs: map<RunId, RunRow>, after: map<RunId, RunRow>) {
    forall p :: p in tasks && tasks[p].Claiming? && tasks[p].picked.Some? && tasks[p].picked.value in runs ==>
      tasks[p].picked.value in after && after[tasks[p].picked.value] == runs[tasks[p].picked.value]
  }

  predicate Can(s: Sys, e: Event) {
    match e
    case Arrive(p) => p !in s.tasks && s.exclusive.None?
    case ReadFlag(p) => p in s.tasks && s.tasks[p].Arriving?
    case Leave(p) => p in s.tasks
    case StartClaim(p) => p in s.tasks && s.tasks[p].Admitted?
    case TryGate(p, repo) => p in s.tasks && s.tasks[p].Claiming? && s.tasks[p].picked.None?
    case Pick(p, run) =>
      && p in s.tasks && s.tasks[p].Claiming? && s.tasks[p].picked.None?
      && CanClaim(s.db, run) && s.db.runs[run].repo in s.tasks[p].gates
      && !s.maintenance && !Busy(s.pending, s.db.runs[run].repo)
      && (forall q :: q in s.tasks ==> !Picked(s.tasks[q], run))
    case CommitClaim(p, _) =>
      p in s.tasks && s.tasks[p].Claiming? && s.tasks[p].picked.Some? && CanClaim(s.db, s.tasks[p].picked.value)
    case StartDelete(p, repo) =>
      && p in s.tasks && s.tasks[p].Admitted?
      && (forall q :: q in s.tasks ==> !HoldsShared(s.tasks[q], repo) && !HoldsGate(s.tasks[q], repo))
    case CheckDelete(p) => p in s.tasks && s.tasks[p].Deleting?
    case CommitDelete(p, _) => p in s.tasks && s.tasks[p].Deleting? && s.tasks[p].checked
    case Abort(p) => p in s.tasks && (s.tasks[p].Claiming? || s.tasks[p].Deleting?)
    case OtherIntent(p, _, _) => p in s.tasks && s.tasks[p].Admitted?
    case Complete(_) => true
    case TakeExclusive(h) => s.exclusive.None? && s.tasks == map[] && h != Lease(true)
    case SetFlag => s.exclusive.Some? && s.exclusive.value.Pausing?
    case CheckReady => s.exclusive == Some(Lease(false))
    case ReleaseExclusive => true
    case Ci(tx) => !tx.ClaimTx? && Enabled(s.db, tx) && LeavesLocked(s.tasks, s.db.runs, Effect(s.db, tx).runs)
  }

  /** BackupReady's query. */
  ghost predicate Ready(s: Sys) {
    s.maintenance && s.pending == {} && forall repo :: Idle(s.db, repo)
  }

  ghost function Next(s: Sys, e: Event): Sys
    requires Can(s, e)
  {
    match e
    case Arrive(p) => s.(tasks := s.tasks[p := Arriving])
    case ReadFlag(p) => if s.maintenance then s.(tasks := s.tasks - {p}) else s.(tasks := s.tasks[p := Admitted])
    case Leave(p) => s.(tasks := s.tasks - {p})
    case StartClaim(p) => s.(tasks := s.tasks[p := Claiming({}, None)])
    case TryGate(p, repo) =>
      if exists q :: q in s.tasks && HoldsGate(s.tasks[q], repo) then s
      else s.(tasks := s.tasks[p := Claiming(s.tasks[p].gates + {repo}, None)])
    case Pick(p, run) => s.(tasks := s.tasks[p := s.tasks[p].(picked := Some(run))])
    case CommitClaim(p, worker) => s.(db := Claim(s.db, s.tasks[p].picked.value, worker), tasks := s.tasks[p := Admitted])
    case StartDelete(p, repo) => s.(tasks := s.tasks[p := Deleting(repo, false)])
    case CheckDelete(p) =>
      s.(tasks := s.tasks[p := if Idle(s.db, s.tasks[p].repo) then Deleting(s.tasks[p].repo, true) else Admitted])
    case CommitDelete(p, id) => s.(pending := s.pending + {Intent(id, s.tasks[p].repo, true)}, tasks := s.tasks[p := Admitted])
    case Abort(p) => s.(tasks := s.tasks[p := Admitted])
    case OtherIntent(_, id, repo) => s.(pending := s.pending + {Intent(id, repo, false)})
    case Complete(intent) => s.(pending := s.pending - {intent})
    case TakeExclusive(h) => s.(exclusive := Some(h))
    case SetFlag => s.(maintenance := s.exclusive.value.paused)
    case CheckReady => s.(exclusive := if Ready(s) then Some(Lease(true)) else None)
    case ReleaseExclusive => s.(exclusive := None)
    case Ci(tx) => s.(db := Effect(s.db, tx))
  }

  // ----- what every interleaving keeps -----

  /** Exclusive admission excludes every task; a task past admission runs unpaused. */
  ghost predicate Admission(tasks: map<Proc, Task>, maintenance: bool, exclusive: Option<Holder>) {
    && (exclusive.Some? ==> tasks == map[])
    && (forall p :: p in tasks && !tasks[p].Arriving? ==> !maintenance)
  }

  /** A gate is held exclusively by one task or shared by claims. */
  ghost predicate Gates(tasks: map<Proc, Task>) {
    forall p, q :: p in tasks && q in tasks && p != q && tasks[p].Deleting? ==>
      !HoldsShared(tasks[q], tasks[p].repo) && !HoldsGate(tasks[q], tasks[p].repo)
  }

  /** An open claim's run is still queued, in a gated repository that is not being deleted. */
  ghost predicate PickIsSafe(task: Task, runs: map<RunId, RunRow>, pending: set<Intent>) {
    task.Claiming? && task.picked.Some? ==>
      && task.picked.value in runs && runs[task.picked.value].status == Queued
      && runs[task.picked.value].repo in task.gates
      && (forall i :: i in pending && i.delete ==> i.repo != runs[task.picked.value].repo)
  }

  ghost predicate Picks(tasks: map<Proc, Task>, runs: map<RunId, RunRow>, pending: set<Intent>) {
    && (forall p :: p in tasks ==> PickIsSafe(tasks[p], runs, pending))
    && (forall p, q :: p in tasks && q in tasks && p != q && tasks[p].Claiming? && tasks[p].picked.Some? ==>
          !Picked(tasks[q], tasks[p].picked.value))
  }

  /** Checked deletions and unfinished delete intents name idle repositories. */
  ghost predicate Deletions(db: Db, tasks: map<Proc, Task>, pending: set<Intent>) {
    && (forall p :: p in tasks && tasks[p].Deleting? && tasks[p].checked ==> Idle(db, tasks[p].repo))
    && (forall i :: i in pending && i.delete ==> Idle(db, i.repo))
  }

  ghost predicate Leases(s: Sys) {
    s.exclusive == Some(Lease(true)) ==> Ready(s)
  }

  ghost predicate Safe(s: Sys) {
    Inv(s.db) && Guarded(s)
  }

  ghost predicate Guarded(s: Sys) {
    && Admission(s.tasks, s.maintenance, s.exclusive) && Gates(s.tasks)
    && Picks(s.tasks, s.db.runs, s.pending) && Deletions(s.db, s.tasks, s.pending) && Leases(s)
  }

  ghost predicate Calm(s: Sys) {
    s.db.runs == map[] && s.db.steps == map[] && s.db.targets == map[] && s.db.log == [] && s.db.usedRuns == {} && s.db.usedSteps == {}
    && s.pending == {} && s.tasks == map[] && s.exclusive.None?
  }

  lemma PickStep(s: Sys, p: Proc, run: RunId)
    requires Safe(s) && Can(s, Pick(p, run))
    ensures Safe(Next(s, Pick(p, run)))
  {
    PickedSafely(s, p, run);
    PickKeepsGates(s.tasks, p, run);
  }

  lemma PickedSafely(s: Sys, p: Proc, run: RunId)
    requires Picks(s.tasks, s.db.runs, s.pending) && Can(s, Pick(p, run))
    ensures Picks(Next(s, Pick(p, run)).tasks, s.db.runs, s.pending)
  {
    var t := Next(s, Pick(p, run));
    forall q | q in t.tasks ensures PickIsSafe(t.tasks[q], s.db.runs, s.pending) {
      assert q != p ==> PickIsSafe(s.tasks[q], s.db.runs, s.pending);
    }
  }

  lemma PickKeepsGates(tasks: map<Proc, Task>, p: Proc, run: RunId)
    requires Gates(tasks) && p in tasks && tasks[p].Claiming?
    ensures Gates(tasks[p := tasks[p].(picked := Some(run))])
  {
  }

  lemma KeepsClaim(db: Db, run: RunId, worker: WorkerId)
    requires Inv(db) && CanClaim(db, run)
    ensures Inv(Claim(db, run, worker))
  {
    Keeps(db, ClaimTx(run, worker));
  }

  /** The claimed repository is neither being checked for deletion nor being deleted. */
  lemma ClaimWakesNobody(s: Sys, p: Proc, worker: WorkerId)
    requires Gates(s.tasks) && Picks(s.tasks, s.db.runs, s.pending) && Deletions(s.db, s.tasks, s.pending)
    requires Can(s, CommitClaim(p, worker))
    ensures var t := Next(s, CommitClaim(p, worker));
            Deletions(t.db, t.tasks, t.pending) && Picks(t.tasks, t.db.runs, t.pending) && Gates(t.tasks)
  {
    var run := s.tasks[p].picked.value;
    var t := Next(s, CommitClaim(p, worker));
    assert PickIsSafe(s.tasks[p], s.db.runs, s.pending);
    forall q | q in t.tasks && t.tasks[q].Deleting? && t.tasks[q].checked ensures Idle(t.db, t.tasks[q].repo) {
      assert !HoldsShared(s.tasks[p], s.tasks[q].repo);
      ClaimIsElsewhere(s.db, run, worker, t.tasks[q].repo);
    }
    forall i | i in t.pending && i.delete ensures Idle(t.db, i.repo) {
      ClaimIsElsewhere(s.db, run, worker, i.repo);
    }
    forall q | q in t.tasks ensures PickIsSafe(t.tasks[q], t.db.runs, t.pending) {
      assert PickIsSafe(s.tasks[q], s.db.runs, s.pending);
      assert q != p ==> !Picked(s.tasks[q], run);
    }
  }

  lemma CommitClaimStep(s: Sys, p: Proc, worker: WorkerId)
    requires Safe(s) && Can(s, CommitClaim(p, worker))
    ensures Safe(Next(s, CommitClaim(p, worker)))
  {
    KeepsClaim(s.db, s.tasks[p].picked.value, worker);
    ClaimWakesNobody(s, p, worker);
  }

  lemma CiIsQuiet(s: Sys, tx: Step)
    requires Inv(s.db) && Can(s, Ci(tx)) && Picks(s.tasks, s.db.runs, s.pending) && Deletions(s.db, s.tasks, s.pending) && Leases(s)
    ensures var t := Next(s, Ci(tx));
            Picks(t.tasks, t.db.runs, t.pending) && Deletions(t.db, t.tasks, t.pending) && Leases(t)
  {
    var t := Next(s, Ci(tx));
    forall repo | Idle(s.db, repo) ensures Idle(t.db, repo) {
      StaysIdle(s.db, tx, repo);
    }
    StillPicked(s.tasks, s.db.runs, t.db.runs, s.pending);
  }

  lemma StillPicked(tasks: map<Proc, Task>, runs: map<RunId, RunRow>, after: map<RunId, RunRow>, pending: set<Intent>)
    requires Picks(tasks, runs, pending) && LeavesLocked(tasks, runs, after)
    ensures Picks(tasks, after, pending)
  {
    forall p | p in tasks ensures PickIsSafe(tasks[p], after, pending) {
      assert PickIsSafe(tasks[p], runs, pending);
    }
  }

  lemma CiStep(s: Sys, tx: Step)
    requires Safe(s) && Can(s, Ci(tx))
    ensures Safe(Next(s, Ci(tx)))
  {
    Keeps(s.db, tx);
    CiIsQuiet(s, tx);
  }

  lemma CommitDeleteStep(s: Sys, p: Proc, id: nat)
    requires Safe(s) && Can(s, CommitDelete(p, id))
    ensures Safe(Next(s, CommitDelete(p, id)))
  {
    var t := Next(s, CommitDelete(p, id));
    forall q | q in t.tasks ensures PickIsSafe(t.tasks[q], t.db.runs, t.pending) {
      assert PickIsSafe(s.tasks[q], s.db.runs, s.pending);
      assert q != p ==> !HoldsShared(s.tasks[q], s.tasks[p].repo);
    }
  }

  lemma EntryStep(s: Sys, e: Event)
    requires Guarded(s) && Can(s, e) && (e.Arrive? || e.ReadFlag? || e.Leave? || e.StartClaim? || e.Abort?)
    ensures Guarded(Next(s, e)) && Next(s, e).db == s.db
  {
  }

  lemma GateStep(s: Sys, e: Event)
    requires Guarded(s) && Can(s, e) && (e.TryGate? || e.StartDelete? || e.CheckDelete?)
    ensures Guarded(Next(s, e)) && Next(s, e).db == s.db
  {
  }

  lemma IntentStep(s: Sys, e: Event)
    requires Guarded(s) && Can(s, e) && (e.OtherIntent? || e.Complete?)
    ensures Guarded(Next(s, e)) && Next(s, e).db == s.db
  {
    var t := Next(s, e);
    forall p | p in t.tasks ensures PickIsSafe(t.tasks[p], t.db.runs, t.pending) {
      assert PickIsSafe(s.tasks[p], s.db.runs, s.pending);
    }
  }

  lemma ExclusiveStep(s: Sys, e: Event)
    requires Guarded(s) && Can(s, e) && (e.TakeExclusive? || e.SetFlag? || e.CheckReady? || e.ReleaseExclusive?)
    ensures Guarded(Next(s, e)) && Next(s, e).db == s.db
  {
  }

  lemma SafeStep(s: Sys, e: Event)
    requires Safe(s) && Can(s, e)
    ensures Safe(Next(s, e))
  {
    if e.Pick? {
      PickStep(s, e.p, e.run);
    } else if e.CommitClaim? {
      CommitClaimStep(s, e.p, e.worker);
    } else if e.CommitDelete? {
      CommitDeleteStep(s, e.p, e.id);
    } else if e.Ci? {
      CiStep(s, e.tx);
    } else {
      OtherStep(s, e);
    }
  }

  lemma OtherStep(s: Sys, e: Event)
    requires Safe(s) && Can(s, e) && !e.Pick? && !e.CommitClaim? && !e.CommitDelete? && !e.Ci?
    ensures Safe(Next(s, e))
  {
    if e.Arrive? || e.ReadFlag? || e.Leave? || e.StartClaim? || e.Abort? {
      EntryStep(s, e);
    } else if e.TryGate? || e.StartDelete? || e.CheckDelete? {
      GateStep(s, e);
    } else if e.OtherIntent? || e.Complete? {
      IntentStep(s, e);
    } else {
      ExclusiveStep(s, e);
    }
  }

  // ----- the promises -----

  ghost predicate Happens(s: Sys, events: seq<Event>)
    decreases |events|
  {
    events == [] || (Can(s, events[0]) && Happens(Next(s, events[0]), events[1..]))
  }

  ghost function Then(s: Sys, events: seq<Event>): Sys
    requires Happens(s, events)
    decreases |events|
  {
    if events == [] then s else Then(Next(s, events[0]), events[1..])
  }

  lemma {:induction false} AlwaysSafe(s: Sys, events: seq<Event>)
    requires Safe(s) && Happens(s, events)
    ensures Safe(Then(s, events))
    decreases |events|
  {
    if events != [] {
      SafeStep(s, events[0]);
      AlwaysSafe(Next(s, events[0]), events[1..]);
    }
  }

  lemma CalmIsSafe(s: Sys)
    requires Calm(s)
    ensures Safe(s)
  {
  }

  /** In the repositories no run is running, every planned container is removed, and no target
      is owned. */
  ghost predicate NothingExecutes(db: Db, repos: set<RepoId>) {
    && (forall r :: r in db.runs && db.runs[r].repo in repos ==> db.runs[r].status != Running)
    && (forall s :: s in db.steps && db.steps[s].run in db.runs && db.runs[db.steps[s].run].repo in repos && db.steps[s].planned ==>
          db.steps[s].removed)
    && (forall k :: k in db.targets && k.repo in repos ==> db.targets[k].owner.None?)
  }

  ghost predicate OnlyTask(s: Sys, t: Sys, p: Proc) {
    && t.db == s.db && t.pending == s.pending && t.maintenance == s.maintenance && t.exclusive == s.exclusive
    && (forall q :: q in s.tasks && q != p ==> q in t.tasks && t.tasks[q] == s.tasks[q])
    && (forall q :: q in t.tasks && q != p ==> q in s.tasks)
  }

  /** What the statements about a repository do: a gate is added to a claim unless a deletion
      holds it; a deletion goes on exactly if nothing executes, and its commit leaves the
      intent. */
  ghost predicate GateMeans(s: Sys, e: Event, t: Sys) {
    && (e.TryGate? ==>
          && OnlyTask(s, t, e.p) && e.p in t.tasks && t.tasks[e.p].Claiming? && t.tasks[e.p].picked.None? && e.p in s.tasks && s.tasks[e.p].Claiming?
          && (forall g :: g in t.tasks[e.p].gates <==>
                g in s.tasks[e.p].gates || (g == e.repo && forall q :: q in s.tasks && s.tasks[q].Deleting? ==> s.tasks[q].repo != e.repo)))
    && (e.CheckDelete? ==>
          && OnlyTask(s, t, e.p) && e.p in t.tasks && e.p in s.tasks && s.tasks[e.p].Deleting?
          && (NothingExecutes(s.db, {s.tasks[e.p].repo}) ==> t.tasks[e.p] == Deleting(s.tasks[e.p].repo, true))
          && (!NothingExecutes(s.db, {s.tasks[e.p].repo}) ==> t.tasks[e.p] == Admitted))
    && (e.CommitDelete? ==>
          && e.p in s.tasks && s.tasks[e.p].Deleting?
          && (forall i :: i in t.pending <==> i in s.pending || i == Intent(e.id, s.tasks[e.p].repo, true))
          && t.db == s.db && t.maintenance == s.maintenance && t.exclusive == s.exclusive && e.p in t.tasks && t.tasks[e.p] == Admitted)
  }

  /** What the statements about the whole instance do: a paused instance admits nobody, and a
      lease is granted exactly while it is paused, nothing is unfinished and nothing executes. */
  ghost predicate InstanceMeans(s: Sys, e: Event, t: Sys) {
    && (e.ReadFlag? ==>
          && OnlyTask(s, t, e.p) && (s.maintenance ==> e.p !in t.tasks) && (!s.maintenance ==> e.p in t.tasks && t.tasks[e.p] == Admitted))
    && (e.CheckReady? ==>
          && t.tasks == s.tasks && t.db == s.db && t.pending == s.pending && t.maintenance == s.maintenance
          && (t.exclusive == Some(Lease(true)) <==> s.maintenance && s.pending == {} && forall repo :: NothingExecutes(s.db, {repo}))
          && (t.exclusive == Some(Lease(true)) || t.exclusive.None?))
    && (e.SetFlag? ==> s.exclusive.Some? && s.exclusive.value.Pausing? && t == s.(maintenance := s.exclusive.value.paused))
    && (e.CommitClaim? ==>
          && e.p in s.tasks && s.tasks[e.p].Claiming? && s.tasks[e.p].picked.Some?
          && var run := s.tasks[e.p].picked.value;
          && run in s.db.runs && t.db == s.db.(runs := s.db.runs[run := s.db.runs[run].(status := Running, worker := Some(e.worker))])
          && t.tasks == s.tasks[e.p := Admitted] && t.pending == s.pending && t.maintenance == s.maintenance && t.exclusive == s.exclusive)
  }

  lemma IdleMeans(db: Db, repo: RepoId)
    ensures Idle(db, repo) <==> NothingExecutes(db, {repo})
  {
  }

  lemma EventMeans(s: Sys, e: Event)
    requires Can(s, e)
    ensures GateMeans(s, e, Next(s, e)) && InstanceMeans(s, e, Next(s, e))
  {
    if e.CheckDelete? {
      IdleMeans(s.db, s.tasks[e.p].repo);
    } else if e.CheckReady? {
      forall repo ensures Idle(s.db, repo) <==> NothingExecutes(s.db, {repo}) {
        IdleMeans(s.db, repo);
      }
    }
  }

  /** While a delete intent is unfinished nothing executes in its repository. */
  lemma DeletionExcludesExecution(s: Sys, events: seq<Event>, intent: Intent)
    requires Calm(s) && Happens(s, events) && intent in Then(s, events).pending && intent.delete
    ensures NothingExecutes(Then(s, events).db, {intent.repo})
  {
    CalmIsSafe(s);
    AlwaysSafe(s, events);
    DeletedIsIdle(Then(s, events), intent);
  }

  lemma DeletedIsIdle(t: Sys, intent: Intent)
    requires Deletions(t.db, t.tasks, t.pending) && intent in t.pending && intent.delete
    ensures NothingExecutes(t.db, {intent.repo})
  {
    IdleMeans(t.db, intent.repo);
  }

  lemma LeasedIsReady(t: Sys)
    requires Leases(t) && Admission(t.tasks, t.maintenance, t.exclusive) && t.exclusive == Some(Lease(true))
    ensures t.maintenance && t.pending == {} && t.tasks == map[] && forall repo :: NothingExecutes(t.db, {repo})
  {
    forall repo ensures NothingExecutes(t.db, {repo}) {
      IdleMeans(t.db, repo);
    }
  }

  /** While a snapshot lease is held the instance is paused, no operation is unfinished,
      nothing executes anywhere and nobody is admitted. */
  lemma LeaseExcludesEverything(s: Sys, events: seq<Event>)
    requires Calm(s) && Happens(s, events) && Then(s, events).exclusive == Some(Lease(true))
    ensures var t := Then(s, events);
            t.maintenance && t.pending == {} && t.tasks == map[] && forall repo :: NothingExecutes(t.db, {repo})
  {
    CalmIsSafe(s);
    AlwaysSafe(s, events);
    LeasedIsReady(Then(s, events));
  }

  /** No two workers hold the same run, and a run that was picked can still be claimed. */
  lemma ClaimsAreDistinct(s: Sys, events: seq<Event>, p: Proc, worker: WorkerId)
    requires Calm(s) && Happens(s, events) && p in Then(s, events).tasks
    requires Then(s, events).tasks[p].Claiming? && Then(s, events).tasks[p].picked.Some?
    ensures var t := Then(s, events);
            && Can(t, CommitClaim(p, worker))
            && (forall q :: q in t.tasks && q != p ==> !Picked(t.tasks[q], t.tasks[p].picked.value))
  {
    CalmIsSafe(s);
    AlwaysSafe(s, events);
    var t := Then(s, events);
    assert PickIsSafe(t.tasks[p], t.db.runs, t.pending);
  }
}
