/** The durable push protocol of one repository: an intent row, one atomic Git
    transaction that leaves a receipt, one database transaction that records the push.

    Each database transaction and each Git ref transaction is one step. The mutation lock
    has an explicit holder, whose place in the code is its Session. A crash, a timeout and
    an error return all drop the session; a lost reply is a step that took effect followed
    by the caller's error branch. */
module PushProtocol {
  import opened Options

  /** An object name; 0 is Git's all-zero name, which names nothing. */
  type Oid = nat

  type OpId = nat

  datatype Ref = Ref(branch: bool, name: string)

  datatype Change = Change(ref: Ref, from: Oid, to: Oid)

  /** One authorized update of a push. `commit` is what `to` resolves to, 0 for a deletion;
      `queues` says that the run it may start can proceed, so it is queued rather than failed. */
  datatype Record = Record(ref: Ref, from: Oid, to: Oid, commit: Oid, runOnPush: bool, queues: bool)

  type Intent = seq<Record>

  datatype Git = Git(refs: map<Ref, Oid>, pins: set<Oid>, receipts: map<OpId, Intent>)

  datatype Outcome = Pending(noted: bool) | Recorded | Rejected | Abandoned

  datatype Operation = Operation(intent: Intent, outcome: Outcome)

  /** `push` is the operation whose recording created the run, none for a manual one. */
  datatype Run = Run(push: Option<OpId>, ref: Ref, commit: Oid)

  /** Run rows by number, and the repository's run counter. */
  datatype Queue = Queue(rows: map<nat, Run>, counter: nat)

  /** `queued` holds the numbers of the runs no worker has taken yet. */
  datatype Db = Db(ops: map<OpId, Operation>, index: map<Ref, Oid>, pushes: map<OpId, Intent>, runs: map<nat, Run>, counter: nat,
                   queued: set<nat>, deployments: map<nat, Oid>)

  datatype Job =
    | PushJob(intent: Intent)
    | StartJob(ref: Ref, commit: Oid)
    | PruneJob
    | RecoverJob(op: OpId)
    | AbandonJob(op: OpId)

  /** Where the holder of the mutation lock is. */
  datatype Session =
    | Entered(job: Job)
    | Admitted(job: Job)
    | Checked(intent: Intent)
    | Trying(op: OpId)
    | Unapplied(op: OpId, mayApply: bool)
    | Clear(op: OpId)
    | Moved(op: OpId)
    | Unsure(op: OpId)
    | Applied(op: OpId)
    | Hopeless(op: OpId)
    | Pinned(ref: Ref, commit: Oid)
    | Listed(objects: set<Oid>)
    | ListedAll(objects: set<Oid>, operations: set<OpId>)
    | Done

  /** What ever happened, for stating "at most once". `rows` holds every run row that was
      ever in the table. */
  datatype History = History(intents: map<OpId, Intent>, applied: seq<OpId>, recorded: seq<OpId>, refused: set<OpId>,
                             rows: map<nat, Run>, outsider: bool)

  /** `peel` resolves an object to its commit; objects never change, so neither does it.
      `reader` is the ref-index lock: the refs its holder has read. */
  datatype State = State(peel: Oid -> Oid, git: Git, db: Db, lock: Option<Session>, reader: Option<map<Ref, Oid>>, past: History)

  // ----- Git -----

  predicate ChangeFits(refs: map<Ref, Oid>, c: Change) {
    if c.ref in refs then refs[c.ref] == c.from else c.from == 0
  }

  predicate ChangesFit(refs: map<Ref, Oid>, changes: seq<Change>) {
    forall i :: 0 <= i < |changes| ==> ChangeFits(refs, changes[i])
  }

  /** update-ref refuses a transaction that names one ref twice. */
  predicate DistinctRefs(changes: seq<Change>) {
    forall i, j :: 0 <= i < j < |changes| ==> changes[i].ref != changes[j].ref
  }

  function Move(refs: map<Ref, Oid>, c: Change): map<Ref, Oid> {
    if c.to == 0 then refs - {c.ref} else refs[c.ref := c.to]
  }

  function MoveAll(refs: map<Ref, Oid>, changes: seq<Change>): map<Ref, Oid> {
    if changes == [] then refs
    else Move(MoveAll(refs, changes[..|changes| - 1]), changes[|changes| - 1])
  }

  function ChangesOf(intent: Intent): (changes: seq<Change>)
    ensures |changes| == |intent|
  {
    seq(|intent|, i requires 0 <= i < |intent| => Change(intent[i].ref, intent[i].from, intent[i].to))
  }

  /** The objects a push's rows name: what each ref pointed at before and after. */
  function Updated(intent: Intent): set<Oid> {
    (set r | r in intent && r.from != 0 :: r.from) + (set r | r in intent && r.to != 0 :: r.to)
  }

  /** Every object the Git transaction of a push pins, commits behind tags included. */
  function Named(intent: Intent): set<Oid> {
    Updated(intent) + (set r | r in intent && r.commit != 0 :: r.commit)
  }

  /** update-ref refuses to delete a ref that is not there. */
  predicate NoneEmpty(changes: seq<Change>) {
    forall i :: 0 <= i < |changes| ==> changes[i].from != 0 || changes[i].to != 0
  }

  predicate GitAccepts(git: Git, op: OpId, intent: Intent) {
    && DistinctRefs(ChangesOf(intent)) && NoneEmpty(ChangesOf(intent))
    && ChangesFit(git.refs, ChangesOf(intent))
    && op !in git.receipts
  }

  function GitApply(git: Git, op: OpId, intent: Intent): Git {
    Git(MoveAll(git.refs, ChangesOf(intent)), git.pins + Named(intent), git.receipts[op := intent])
  }

  function NonZero(objects: set<Oid>): set<Oid> {
    set h | h in objects && h != 0
  }

  function GitReconcile(git: Git, objects: set<Oid>, operations: set<OpId>): Git {
    Git(git.refs, NonZero(objects), map op | op in git.receipts && op in operations :: git.receipts[op])
  }

  // ----- the database -----

  function IndexOf(peel: Oid -> Oid, refs: map<Ref, Oid>): map<Ref, Oid> {
    map r | r in refs :: peel(refs[r])
  }

  predicate IsPending(ops: map<OpId, Operation>, op: OpId) {
    op in ops && ops[op].outcome.Pending?
  }

  predicate AnyPending(ops: map<OpId, Operation>) {
    exists op :: op in ops && IsPending(ops, op)
  }

  predicate Runs(r: Record) {
    r.to != 0 && r.runOnPush
  }

  /** The check that guards "git refs diverge from operation receipt". */
  predicate Agrees(current: map<Ref, Oid>, intent: Intent) {
    forall r :: r in intent && Runs(r) ==> r.ref in current && current[r.ref] == r.commit
  }

  /** allocateRunNumber and insertRun: a row under the next number. */
  function AddRun(q: Queue, run: Run): Queue {
    Queue(q.rows[q.counter + 1 := run], q.counter + 1)
  }

  /** Queues the runs of a push. */
  function QueueRuns(q: Queue, op: OpId, intent: Intent): Queue {
    if intent == [] then q
    else
      var r := intent[|intent| - 1];
      var before := QueueRuns(q, op, intent[..|intent| - 1]);
      if Runs(r) then AddRun(before, Run(Some(op), r.ref, r.commit)) else before
  }

  /** supersedeQueued: no run of the ref waits any longer. */
  function Cancelled(queued: set<nat>, rows: map<nat, Run>, ref: Ref): set<nat> {
    set k | k in queued && !(k in rows && rows[k].ref == ref)
  }

  /** The waiting runs once a push is recorded: a new run supersedes those of its ref, and a
      deleted ref that is gone loses them. */
  function QueuedAfter(q: Queue, queued: set<nat>, op: OpId, intent: Intent, current: map<Ref, Oid>): set<nat> {
    if intent == [] then queued
    else
      var r, front := intent[|intent| - 1], intent[..|intent| - 1];
      var rows, before := QueueRuns(q, op, front).rows, QueuedAfter(q, queued, op, front, current);
      if Runs(r) then Cancelled(before, rows, r.ref) + if r.queues then {QueueRuns(q, op, intent).counter} else {}
      else if r.to == 0 && r.ref !in current then Cancelled(before, rows, r.ref)
      else before
  }

  function RecordPush(db: Db, op: OpId, current: map<Ref, Oid>): Db
    requires op in db.ops
  {
    var intent := db.ops[op].intent;
    var q := Queue(db.runs, db.counter);
    var queue := QueueRuns(q, op, intent);
    db.(index := current, pushes := db.pushes[op := intent], runs := queue.rows, counter := queue.counter,
        queued := QueuedAfter(q, db.queued, op, intent, current), ops := db.ops[op := db.ops[op].(outcome := Recorded)])
  }

  /** CreateTx for a manual run. */
  function CreateManual(db: Db, ref: Ref, commit: Oid, queues: bool): Db {
    var queue := AddRun(Queue(db.runs, db.counter), Run(None, ref, commit));
    db.(runs := queue.rows, counter := queue.counter,
        queued := Cancelled(db.queued, db.runs, ref) + if queues then {queue.counter} else {})
  }

  function Finish(db: Db, op: OpId, outcome: Outcome): Db
    requires op in db.ops
  {
    db.(ops := db.ops[op := db.ops[op].(outcome := outcome)])
  }

  /** retainedObjects: every object a run, deployment, push update or ref row names. */
  function Retained(db: Db): set<Oid> {
    (set r | r in db.runs :: db.runs[r].commit)
    + (set d | d in db.deployments :: db.deployments[d])
    + (set r | r in db.index :: db.index[r])
    + (set op, h | op in db.pushes && h in Updated(db.pushes[op]) :: h)
  }

  // ----- steps -----

  datatype Step =
    // the mutation lock
    | Acquire(job: Job)
    | Release
    | Admit
    // a push, live or recovered
    | CheckPush
    | Begin(op: OpId)
    | Resume
    | SeeReceipt
    | SeeNoReceipt
    | CheckPasses
    | CheckFails
    | ApplyTakes(replyLost: bool)
    | ApplyFails
    | RecordTx
    | RejectTx
    // abandonment
    | Despair
    | AbandonTx
    // a manual run
    | PinTx
    | StartTx(queues: bool)
    // reconciliation of pins
    | ListObjects
    | ListOperations
    | ReconcileTx
    // without the mutation lock
    | NoteError(op: OpId)
    | Deploy(id: nat, run: nat)
    | LeaveQueue(run: nat)
    | ForgetRun(run: nat)
    | ForgetDeployment(id: nat)
    | ForgetPush(op: OpId)
    | ForgetOperation(op: OpId)
    | SyncRead
    | SyncTx
    | SyncDrop
    | Outsider(refs: map<Ref, Oid>)

  predicate At(s: State, session: Session) {
    s.lock == Some(session)
  }

  predicate Holds(s: State) {
    s.lock.Some?
  }

  /** The intent becomes durable; the pending-operation index refuses a second one. */
  predicate CanBegin(s: State, op: OpId) {
    Holds(s) && s.lock.value.Checked? && op !in s.past.intents && !AnyPending(s.db.ops)
  }

  function DoBegin(s: State, op: OpId): State
    requires CanBegin(s, op)
  {
    var intent := s.lock.value.intent;
    s.(lock := Some(Trying(op)), db := s.db.(ops := s.db.ops[op := Operation(intent, Pending(false))]),
       past := s.past.(intents := s.past.intents[op := intent]))
  }

  /** The Git transaction: refs, pins and receipt together. */
  predicate CanApply(s: State) {
    Holds(s) && s.lock.value.Clear? && s.lock.value.op in s.db.ops
    && GitAccepts(s.git, s.lock.value.op, s.db.ops[s.lock.value.op].intent)
  }

  function DoApply(s: State, replyLost: bool): State
    requires CanApply(s)
  {
    var op := s.lock.value.op;
    s.(lock := Some(if replyLost then Unsure(op) else Applied(op)), git := GitApply(s.git, op, s.db.ops[op].intent),
       past := s.past.(applied := s.past.applied + [op]))
  }

  /** The recording transaction: index, push row, runs and completion together. */
  predicate CanRecord(s: State) {
    Holds(s) && s.lock.value.Applied? && s.reader.None? && IsPending(s.db.ops, s.lock.value.op)
    && Agrees(IndexOf(s.peel, s.git.refs), s.db.ops[s.lock.value.op].intent)
  }

  function DoRecord(s: State): State
    requires CanRecord(s)
  {
    var op := s.lock.value.op;
    var db := RecordPush(s.db, op, IndexOf(s.peel, s.git.refs));
    s.(lock := Some(Done), db := db, past := s.past.(recorded := s.past.recorded + [op], rows := s.past.rows + db.runs))
  }

  /** The transaction of a manual run. */
  function DoStart(s: State, queues: bool): State
    requires Holds(s) && s.lock.value.Pinned?
  {
    var db := CreateManual(s.db, s.lock.value.ref, s.lock.value.commit, queues);
    s.(lock := Some(Done), db := db, past := s.past.(rows := s.past.rows + db.runs))
  }

  function DoRefuse(s: State, outcome: Outcome): State
    requires Holds(s) && (s.lock.value.Moved? || s.lock.value.Hopeless?) && s.lock.value.op in s.db.ops
  {
    var op := s.lock.value.op;
    s.(lock := Some(Done), db := Finish(s.db, op, outcome), past := s.past.(refused := s.past.refused + {op}))
  }

  /** Whether the step can happen. */
  predicate Enabled(s: State, step: Step) {
    match step
    case Acquire(job) => s.lock.None? && (job.PushJob? ==> Prepared(s.peel, job.intent)) && (job.StartJob? ==> job.commit != 0)
    case Release => Holds(s)
    case Admit =>
      Holds(s) && s.lock.value.Entered? && !AnyPending(s.db.ops)
      && (s.lock.value.job.PushJob? || s.lock.value.job.StartJob? || s.lock.value.job.PruneJob?)
    case CheckPush =>
      Holds(s) && s.lock.value.Admitted? && s.lock.value.job.PushJob?
      && ChangesFit(s.git.refs, ChangesOf(s.lock.value.job.intent))
    case Begin(op) => CanBegin(s, op)
    case Resume =>
      Holds(s) && s.lock.value.Entered? && s.lock.value.job.RecoverJob? && IsPending(s.db.ops, s.lock.value.job.op)
    case SeeReceipt =>
      Holds(s) && (s.lock.value.Trying? || s.lock.value.Unsure?)
      && var op := s.lock.value.op;
      op in s.db.ops && op in s.git.receipts && s.git.receipts[op] == s.db.ops[op].intent
    case SeeNoReceipt => Holds(s) && (s.lock.value.Trying? || s.lock.value.Unsure?) && s.lock.value.op !in s.git.receipts
    case CheckPasses =>
      Holds(s) && s.lock.value.Unapplied? && s.lock.value.mayApply && s.lock.value.op in s.db.ops
      && ChangesFit(s.git.refs, ChangesOf(s.db.ops[s.lock.value.op].intent))
    case CheckFails =>
      Holds(s) && s.lock.value.Unapplied? && s.lock.value.op in s.db.ops
      && !ChangesFit(s.git.refs, ChangesOf(s.db.ops[s.lock.value.op].intent))
    case ApplyTakes(_) => CanApply(s)
    case ApplyFails => Holds(s) && s.lock.value.Clear?
    case RecordTx => CanRecord(s)
    case RejectTx => Holds(s) && s.lock.value.Moved? && IsPending(s.db.ops, s.lock.value.op)
    case Despair =>
      Holds(s) && s.lock.value.Entered? && s.lock.value.job.AbandonJob?
      && var op := s.lock.value.job.op;
      IsPending(s.db.ops, op) && s.db.ops[op].outcome.noted && op !in s.git.receipts
    case AbandonTx => Holds(s) && s.lock.value.Hopeless? && IsPending(s.db.ops, s.lock.value.op)
    case PinTx => Holds(s) && s.lock.value.Admitted? && s.lock.value.job.StartJob?
    case StartTx(_) => Holds(s) && s.lock.value.Pinned?
    case ListObjects => At(s, Admitted(PruneJob))
    case ListOperations => Holds(s) && s.lock.value.Listed?
    case ReconcileTx => Holds(s) && s.lock.value.ListedAll?
    case NoteError(op) => IsPending(s.db.ops, op)
    case Deploy(id, run) => id !in s.db.deployments && run in s.db.runs
    case LeaveQueue(run) => true
    case ForgetRun(run) => run !in s.db.queued
    case ForgetDeployment(id) => true
    case ForgetPush(op) => true
    case ForgetOperation(op) => op in s.db.ops && !IsPending(s.db.ops, op)
    case SyncRead => s.reader.None?
    case SyncTx => s.reader.Some?
    case SyncDrop => s.reader.Some?
    case Outsider(refs) => forall r :: r in refs ==> refs[r] != 0
  }

  /** What prepareRecords guarantees of the records it snapshots. */
  predicate Prepared(peel: Oid -> Oid, intent: Intent) {
    forall r :: r in intent ==> r.commit == if r.to == 0 then 0 else peel(r.to)
  }

  function Effect(s: State, step: Step): State
    requires Enabled(s, step)
  {
    match step
    case Acquire(job) => s.(lock := Some(Entered(job)))
    case Release => s.(lock := None)
    case Admit => s.(lock := Some(Admitted(s.lock.value.job)))
    case CheckPush => s.(lock := Some(Checked(s.lock.value.job.intent)))
    case Begin(op) => DoBegin(s, op)
    case Resume => s.(lock := Some(Trying(s.lock.value.job.op)))
    case SeeReceipt => s.(lock := Some(Applied(s.lock.value.op)))
    case SeeNoReceipt => s.(lock := Some(Unapplied(s.lock.value.op, s.lock.value.Trying?)))
    case CheckPasses => s.(lock := Some(Clear(s.lock.value.op)))
    case CheckFails => s.(lock := Some(Moved(s.lock.value.op)))
    case ApplyTakes(replyLost) => DoApply(s, replyLost)
    case ApplyFails => s.(lock := Some(Unsure(s.lock.value.op)))
    case RecordTx => DoRecord(s)
    case RejectTx => DoRefuse(s, Rejected)
    case Despair => s.(lock := Some(Hopeless(s.lock.value.job.op)))
    case AbandonTx => DoRefuse(s, Abandoned)
    case PinTx =>
      var job := s.lock.value.job;
      s.(lock := Some(Pinned(job.ref, job.commit)), git := s.git.(pins := s.git.pins + {job.commit}))
    case StartTx(queues) => DoStart(s, queues)
    case ListObjects => s.(lock := Some(Listed(Retained(s.db))))
    case ListOperations => s.(lock := Some(ListedAll(s.lock.value.objects, s.db.ops.Keys)))
    case ReconcileTx => s.(lock := Some(Done), git := GitReconcile(s.git, s.lock.value.objects, s.lock.value.operations))
    case NoteError(op) => s.(db := Finish(s.db, op, Pending(true)))
    case Deploy(id, run) => s.(db := s.db.(deployments := s.db.deployments[id := s.db.runs[run].commit]))
    case LeaveQueue(run) => s.(db := s.db.(queued := s.db.queued - {run}))
    case ForgetRun(run) => s.(db := s.db.(runs := s.db.runs - {run}))
    case ForgetDeployment(id) => s.(db := s.db.(deployments := s.db.deployments - {id}))
    case ForgetPush(op) => s.(db := s.db.(pushes := s.db.pushes - {op}))
    case ForgetOperation(op) => s.(db := s.db.(ops := s.db.ops - {op}))
    case SyncRead => s.(reader := Some(IndexOf(s.peel, s.git.refs)))
    case SyncTx => s.(reader := None, db := s.db.(index := s.reader.value))
    case SyncDrop => s.(reader := None)
    case Outsider(refs) => s.(git := s.git.(refs := refs), past := s.past.(outsider := true))
  }
}
