/** What every run of the push protocol keeps. */
module PushSafety {
  import opened Options
  import opened PushProtocol

  ghost predicate NoRepeat(s: seq<OpId>) {
    forall i, j :: 0 <= i < j < |s| ==> s[i] != s[j]
  }

  /** Some operation has changed Git and is not recorded yet. */
  ghost predicate InFlight(ops: map<OpId, Operation>, past: History) {
    exists op :: IsPending(ops, op) && op in past.applied
  }

  ghost predicate WellFormed(peel: Oid -> Oid, refs: map<Ref, Oid>, past: History) {
    && (forall r :: r in refs ==> refs[r] != 0)
    && (forall op :: op in past.intents ==> Prepared(peel, past.intents[op]))
  }

  /** The journal: at most one unfinished operation, and every row tells what happened. */
  ghost predicate Journal(ops: map<OpId, Operation>, pushes: map<OpId, Intent>, past: History) {
    && (forall op :: op in ops ==> op in past.intents && ops[op].intent == past.intents[op] && Truthful(ops[op].outcome, op, past))
    && (forall a, b :: IsPending(ops, a) && IsPending(ops, b) ==> a == b)
    && (forall op :: op in pushes ==> op in past.recorded && op in past.intents && pushes[op] == past.intents[op])
  }

  ghost predicate Truthful(outcome: Outcome, op: OpId, past: History) {
    match outcome
    case Pending(_) => op !in past.recorded && op !in past.refused
    case Recorded => op in past.recorded
    case Rejected => op in past.refused && past.outsider
    case Abandoned => op in past.refused
  }

  /** Git changes at most once per operation, rows are made at most once, and an operation
      that was rejected or abandoned never changed Git. */
  ghost predicate Once(past: History) {
    && NoRepeat(past.applied)
    && NoRepeat(past.recorded)
    && (forall op :: op in past.applied ==> op in past.intents && DistinctRefs(ChangesOf(past.intents[op])))
    && (forall op :: op in past.recorded ==> op in past.applied)
    && (forall op :: op in past.refused ==> op in past.intents && op !in past.applied)
  }

  /** The rows hold no two runs of one push for one ref. */
  ghost predicate OnePerRef(rows: map<nat, Run>) {
    forall k, l :: k in rows && l in rows && rows[k].push.Some? && rows[k].push == rows[l].push && rows[k].ref == rows[l].ref ==> k == l
  }

  /** Some record of the intent asks for this run. */
  ghost predicate Asks(intent: Intent, op: OpId, run: Run) {
    exists r :: r in intent && Runs(r) && run == Run(Some(op), r.ref, r.commit)
  }

  ghost predicate HasRow(rows: map<nat, Run>, run: Run) {
    exists k :: k in rows && rows[k] == run
  }

  /** A run of a push was asked for by a recorded push. */
  ghost predicate RowsAsked(rows: map<nat, Run>, past: History) {
    forall k :: k in rows && rows[k].push.Some? ==>
      var op := rows[k].push.value;
      op in past.recorded && op in past.intents && Asks(past.intents[op], op, rows[k])
  }

  /** Every record of a recorded push that asks for a run got one. */
  ghost predicate AskedRows(rows: map<nat, Run>, past: History) {
    forall op, r {:trigger r in past.intents[op], op in past.recorded} ::
      op in past.recorded && op in past.intents && r in past.intents[op] && Runs(r) ==> HasRow(rows, Run(Some(op), r.ref, r.commit))
  }

  /** Numbers are never given out twice, and rows never change. */
  ghost predicate Numbered(runs: map<nat, Run>, counter: nat, rows: map<nat, Run>) {
    && (forall k :: k in rows ==> k <= counter)
    && (forall k :: k in runs ==> k in rows && rows[k] == runs[k])
  }

  /** A waiting run is the newest one of its ref. */
  ghost predicate Waiting(runs: map<nat, Run>, queued: set<nat>) {
    && (forall k :: k in queued ==> k in runs)
    && (forall k, l :: k in queued && l in runs && runs[l].ref == runs[k].ref ==> l <= k)
  }

  /** Over the whole past there is exactly one run row for each record that asked for one. */
  ghost predicate RowsOnce(runs: map<nat, Run>, counter: nat, past: History) {
    && Numbered(runs, counter, past.rows) && OnePerRef(past.rows)
    && RowsAsked(past.rows, past) && AskedRows(past.rows, past)
  }

  /** While its row exists, an operation has a receipt exactly when it changed Git. */
  ghost predicate Receipted(receipts: map<OpId, Intent>, ops: map<OpId, Operation>, past: History) {
    && (forall op :: op in receipts ==> op in past.applied && op in past.intents && receipts[op] == past.intents[op])
    && (forall op :: op in ops && op in past.applied ==> op in receipts)
  }

  /** What the holder of the mutation lock may rely on. */
  ghost predicate Informed(s: State) {
    s.lock.Some? ==>
      var ops := s.db.ops;
      match s.lock.value
      case Entered(job) => SoundJob(s.peel, job)
      case Admitted(job) => !AnyPending(ops) && SoundJob(s.peel, job)
      case Checked(intent) =>
        !AnyPending(ops) && Prepared(s.peel, intent) && (!s.past.outsider ==> ChangesFit(s.git.refs, ChangesOf(intent)))
      case Trying(op) => IsPending(ops, op)
      case Unsure(op) => IsPending(ops, op)
      case Unapplied(op, _) => IsPending(ops, op) && op !in s.past.applied
      case Clear(op) => IsPending(ops, op) && op !in s.past.applied
      case Moved(op) => IsPending(ops, op) && op !in s.past.applied && s.past.outsider
      case Applied(op) => IsPending(ops, op) && op in s.past.applied
      case Hopeless(op) => IsPending(ops, op) && op !in s.past.applied
      case Pinned(_, c) => !AnyPending(ops) && c != 0 && c in s.git.pins
      case Listed(objects) => !AnyPending(ops) && Covers(objects, s.db.runs, s.db.deployments, s.db.pushes)
      case ListedAll(objects, operations) =>
        !AnyPending(ops) && Covers(objects, s.db.runs, s.db.deployments, s.db.pushes) && ops.Keys <= operations
      case Done => true
  }

  ghost predicate SoundJob(peel: Oid -> Oid, job: Job) {
    match job
    case PushJob(intent) => Prepared(peel, intent)
    case StartJob(_, commit) => commit != 0
    case _ => true
  }

  /** Every object named by a run, deployment or push row is in `objects`. */
  ghost predicate Covers(objects: set<Oid>, runs: map<nat, Run>, deployments: map<nat, Oid>, pushes: map<OpId, Intent>) {
    && (forall r :: r in runs && runs[r].commit != 0 ==> runs[r].commit in objects)
    && (forall d :: d in deployments && deployments[d] != 0 ==> deployments[d] in objects)
    && (forall op :: op in pushes ==> Updated(pushes[op]) <= objects)
  }

  /** The refs are where the intent puts them. */
  ghost predicate Landed(refs: map<Ref, Oid>, intent: Intent) {
    forall r :: r in intent ==> if r.to == 0 then r.ref !in refs else r.ref in refs && refs[r.ref] == r.to
  }

  /** If nobody else moves refs, the index is Git's refs unless a push is in flight, and a
      push's refs stay where the push expects them. */
  ghost predicate InStep(s: State) {
    !s.past.outsider ==>
      && (!InFlight(s.db.ops, s.past) ==>
            s.db.index == IndexOf(s.peel, s.git.refs) && (s.reader.Some? ==> s.reader.value == IndexOf(s.peel, s.git.refs)))
      && (forall op :: IsPending(s.db.ops, op) ==> Expected(s.git.refs, s.db.ops[op].intent, op in s.past.applied))
  }

  ghost predicate Expected(refs: map<Ref, Oid>, intent: Intent, applied: bool) {
    if applied then Landed(refs, intent) else ChangesFit(refs, ChangesOf(intent))
  }

  /** Nothing the database names can be collected by Git. */
  ghost predicate Kept(pins: set<Oid>, db: Db, past: History) {
    && Covers(pins, db.runs, db.deployments, db.pushes)
    && (forall op :: IsPending(db.ops, op) && op in past.applied ==> Named(db.ops[op].intent) <= pins)
  }

  /** What does not speak of run rows. */
  ghost predicate InvButRows(s: State) {
    && WellFormed(s.peel, s.git.refs, s.past)
    && Journal(s.db.ops, s.db.pushes, s.past)
    && Once(s.past)
    && Receipted(s.git.receipts, s.db.ops, s.past)
    && InStep(s)
  }

  ghost predicate Inv(s: State) {
    InvButRows(s) && Informed(s) && RowsOnce(s.db.runs, s.db.counter, s.past) && Kept(s.git.pins, s.db, s.past)
    && Waiting(s.db.runs, s.db.queued)
  }

  // ----- lemmas about the Git transaction -----

  lemma {:induction false} MoveAllLands(refs: map<Ref, Oid>, changes: seq<Change>, ref: Ref)
    requires DistinctRefs(changes)
    ensures (forall i :: 0 <= i < |changes| ==> changes[i].ref != ref) ==>
              (ref in MoveAll(refs, changes) <==> ref in refs)
              && (ref in refs ==> MoveAll(refs, changes)[ref] == refs[ref])
    ensures forall i :: 0 <= i < |changes| && changes[i].ref == ref ==>
              if changes[i].to == 0 then ref !in MoveAll(refs, changes)
              else ref in MoveAll(refs, changes) && MoveAll(refs, changes)[ref] == changes[i].to
  {
    if changes != [] {
      var front := changes[..|changes| - 1];
      MoveAllLands(refs, front, ref);
      forall i | 0 <= i < |changes| && changes[i].ref == ref
        ensures if changes[i].to == 0 then ref !in MoveAll(refs, changes)
                else ref in MoveAll(refs, changes) && MoveAll(refs, changes)[ref] == changes[i].to
      {
        if i < |front| {
          assert front[i] == changes[i];
        }
      }
    }
  }

  lemma AppliedLands(refs: map<Ref, Oid>, intent: Intent)
    requires DistinctRefs(ChangesOf(intent))
    ensures Landed(MoveAll(refs, ChangesOf(intent)), intent)
  {
    var changes := ChangesOf(intent);
    forall r | r in intent
      ensures var after := MoveAll(refs, changes);
              if r.to == 0 then r.ref !in after else r.ref in after && after[r.ref] == r.to
    {
      var i :| 0 <= i < |intent| && intent[i] == r;
      assert changes[i] == Change(r.ref, r.from, r.to);
      MoveAllLands(refs, changes, r.ref);
    }
  }

  lemma {:induction false} MoveAllNonZero(refs: map<Ref, Oid>, changes: seq<Change>)
    requires forall r :: r in refs ==> refs[r] != 0
    ensures forall r :: r in MoveAll(refs, changes) ==> MoveAll(refs, changes)[r] != 0
  {
    if changes != [] {
      MoveAllNonZero(refs, changes[..|changes| - 1]);
    }
  }

  // ----- every step keeps the invariant -----

  /** Steps that only move the holder of the lock. */
  lemma KeepsLocking(s: State, step: Step)
    requires Inv(s) && Enabled(s, step)
    requires step.Acquire? || step.Release? || step.Admit? || step.CheckPush? || step.Resume?
    ensures Inv(Effect(s, step))
  {
    assert Informed(Effect(s, step));
  }

  lemma KeepsLooking(s: State, step: Step)
    requires Inv(s) && Enabled(s, step)
    requires step.SeeReceipt? || step.SeeNoReceipt? || step.CheckPasses? || step.CheckFails? || step.ApplyFails? || step.Despair?
    ensures Inv(Effect(s, step))
  {
    assert Informed(Effect(s, step));
  }

  lemma KeepsListing(s: State, step: Step)
    requires Inv(s) && Enabled(s, step)
    requires step.ListObjects? || step.ListOperations?
    ensures Inv(Effect(s, step))
  {
    assert Informed(Effect(s, step));
  }

  lemma KeepsBegin(s: State, op: OpId)
    requires Inv(s) && CanBegin(s, op)
    ensures Inv(DoBegin(s, op))
  {
    var t := DoBegin(s, op);
    assert forall o :: IsPending(t.db.ops, o) ==> o == op || IsPending(s.db.ops, o);
    assert !InFlight(s.db.ops, s.past) && !InFlight(t.db.ops, t.past);
  }

  lemma KeepsApply(s: State, replyLost: bool)
    requires Inv(s) && CanApply(s)
    ensures Inv(DoApply(s, replyLost))
  {
    var t := DoApply(s, replyLost);
    var op := s.lock.value.op;
    MoveAllNonZero(s.git.refs, ChangesOf(s.db.ops[op].intent));
    AppliedLands(s.git.refs, s.db.ops[op].intent);
    AppliedOnce(s.past, op, t.past);
    assert IsPending(t.db.ops, op) && op in t.past.applied;
    assert InFlight(t.db.ops, t.past);
  }

  lemma AppliedOnce(past: History, op: OpId, after: History)
    requires Once(past) && op !in past.applied && op !in past.refused && op in past.intents
    requires DistinctRefs(ChangesOf(past.intents[op]))
    requires after == past.(applied := past.applied + [op])
    ensures Once(after)
  {
  }

  lemma KeepsRefusal(s: State, outcome: Outcome)
    requires Inv(s) && Holds(s)
    requires (s.lock.value.Moved? && outcome == Rejected) || (s.lock.value.Hopeless? && outcome == Abandoned)
    ensures Inv(DoRefuse(s, outcome))
  {
    var t := DoRefuse(s, outcome);
    var op := s.lock.value.op;
    Completed(s.db.ops, s.db.pushes, s.past, op, outcome, t.db.ops, t.db.pushes, t.past);
    RefusedOnce(s.past, op, t.past);
    NothingInFlight(s.db.ops, s.db.pushes, s.past, op);
  }

  lemma RefusedOnce(past: History, op: OpId, after: History)
    requires Once(past) && op in past.intents && op !in past.applied && after == past.(refused := past.refused + {op})
    ensures Once(after)
  {
  }

  lemma NothingInFlight(ops: map<OpId, Operation>, pushes: map<OpId, Intent>, past: History, op: OpId)
    requires Journal(ops, pushes, past) && IsPending(ops, op) && op !in past.applied
    ensures !InFlight(ops, past)
  {
  }

  lemma KeepsNote(s: State, op: OpId)
    requires Inv(s) && Enabled(s, NoteError(op))
    ensures Inv(Effect(s, NoteError(op)))
  {
    var t := Effect(s, NoteError(op));
    assert forall o :: IsPending(t.db.ops, o) <==> IsPending(s.db.ops, o);
    assert InFlight(t.db.ops, t.past) <==> InFlight(s.db.ops, s.past);
  }

  lemma KeepsPin(s: State)
    requires Inv(s) && Enabled(s, PinTx)
    ensures Inv(Effect(s, PinTx))
  {
  }

  lemma KeepsStart(s: State, queues: bool)
    requires Inv(s) && Enabled(s, StartTx(queues))
    ensures Inv(DoStart(s, queues))
  {
    var t := DoStart(s, queues);
    var run := Run(None, s.lock.value.ref, s.lock.value.commit);
    ManualRun(s.db.runs, s.db.counter, s.past, run, t.past);
    OtherHistory(s, t);
    ManualRunIsCovered(s.git.pins, s.db, run);
    ManualWaits(s.db, run.ref, run.commit, queues);
  }

  lemma ManualWaits(db: Db, ref: Ref, commit: Oid, queues: bool)
    requires Waiting(db.runs, db.queued) && forall k :: k in db.runs ==> k <= db.counter
    ensures Waiting(CreateManual(db, ref, commit, queues).runs, CreateManual(db, ref, commit, queues).queued)
  {
  }

  lemma ManualRunIsCovered(pins: set<Oid>, db: Db, run: Run)
    requires Covers(pins, db.runs, db.deployments, db.pushes) && run.commit in pins
    ensures Covers(pins, AddRun(Queue(db.runs, db.counter), run).rows, db.deployments, db.pushes)
  {
  }

  lemma OtherHistory(s: State, t: State)
    requires InvButRows(s)
    requires t.git == s.git && t.peel == s.peel && t.reader == s.reader
    requires t.db.ops == s.db.ops && t.db.index == s.db.index && t.db.pushes == s.db.pushes
    requires t.past == s.past.(rows := t.past.rows)
    ensures InvButRows(t)
  {
    assert InFlight(t.db.ops, t.past) == InFlight(s.db.ops, s.past);
  }

  lemma ManualRun(runs: map<nat, Run>, counter: nat, past: History, run: Run, after: History)
    requires RowsOnce(runs, counter, past) && run.push.None?
    requires after == past.(rows := past.rows + AddRun(Queue(runs, counter), run).rows)
    ensures RowsOnce(AddRun(Queue(runs, counter), run).rows, counter + 1, after)
  {
    assert after.rows == past.rows[counter + 1 := run];
    StillRows(past.rows, after.rows);
  }

  /** Rows that stay still answer what was asked for. */
  lemma StillRows(rows: map<nat, Run>, after: map<nat, Run>)
    requires forall k :: k in rows ==> k in after && after[k] == rows[k]
    ensures forall run :: HasRow(rows, run) ==> HasRow(after, run)
  {
    forall run | HasRow(rows, run) ensures HasRow(after, run) {
      var k :| k in rows && rows[k] == run;
      assert k in after && after[k] == run;
    }
  }

  /** Dropping zero names from the wanted objects loses nothing. */
  lemma NonZeroCovers(objects: set<Oid>, db: Db)
    requires Covers(objects, db.runs, db.deployments, db.pushes)
    ensures Covers(NonZero(objects), db.runs, db.deployments, db.pushes)
  {
    assert forall op :: op in db.pushes ==> 0 !in Updated(db.pushes[op]);
  }

  lemma KeepsReconcile(s: State)
    requires Inv(s) && Enabled(s, ReconcileTx)
    ensures Inv(Effect(s, ReconcileTx))
  {
    NonZeroCovers(s.lock.value.objects, s.db);
    assert forall op :: !IsPending(s.db.ops, op);
  }

  lemma KeepsDeploy(s: State, step: Step)
    requires Inv(s) && Enabled(s, step) && step.Deploy?
    ensures Inv(Effect(s, step))
  {
    OtherHistory(s, Effect(s, step));
  }

  lemma KeepsForgetRun(s: State, step: Step)
    requires Inv(s) && Enabled(s, step) && (step.ForgetRun? || step.LeaveQueue?)
    ensures Inv(Effect(s, step))
  {
    OtherHistory(s, Effect(s, step));
  }

  lemma KeepsForgetDeployment(s: State, step: Step)
    requires Inv(s) && Enabled(s, step) && step.ForgetDeployment?
    ensures Inv(Effect(s, step))
  {
    OtherHistory(s, Effect(s, step));
  }

  lemma KeepsForgetPush(s: State, step: Step)
    requires Inv(s) && Enabled(s, step) && step.ForgetPush?
    ensures Inv(Effect(s, step))
  {
  }

  lemma KeepsForgetOperation(s: State, op: OpId)
    requires Inv(s) && Enabled(s, ForgetOperation(op))
    ensures Inv(Effect(s, ForgetOperation(op)))
  {
    var t := Effect(s, ForgetOperation(op));
    assert forall o :: IsPending(t.db.ops, o) <==> IsPending(s.db.ops, o);
    assert InFlight(t.db.ops, t.past) <==> InFlight(s.db.ops, s.past);
  }

  lemma KeepsSync(s: State, step: Step)
    requires Inv(s) && Enabled(s, step)
    requires step.SyncRead? || step.SyncTx? || step.SyncDrop?
    ensures Inv(Effect(s, step))
  {
    SyncInStep(s, step);
  }

  lemma SyncInStep(s: State, step: Step)
    requires InStep(s) && Enabled(s, step) && (step.SyncRead? || step.SyncTx? || step.SyncDrop?)
    ensures InStep(Effect(s, step))
  {
    var t := Effect(s, step);
    assert InFlight(t.db.ops, t.past) == InFlight(s.db.ops, s.past);
  }

  lemma KeepsOutsider(s: State, refs: map<Ref, Oid>)
    requires Inv(s) && Enabled(s, Outsider(refs))
    ensures Inv(Effect(s, Outsider(refs)))
  {
  }

  // ----- recording -----

  /** What queueing the runs of a push does to the rows: numbers above the counter are used,
      and the rows below it stay. */
  ghost predicate Extends(q: Queue, after: Queue) {
    && q.counter <= after.counter
    && (forall k :: k in q.rows && k <= q.counter ==> k in after.rows && after.rows[k] == q.rows[k])
    && (forall k :: k in after.rows && k <= q.counter ==> k in q.rows)
    && (forall k :: k in after.rows ==> k in q.rows || k <= after.counter)
  }

  lemma {:induction false} QueueExtends(q: Queue, op: OpId, intent: Intent)
    ensures Extends(q, QueueRuns(q, op, intent))
  {
    if intent != [] {
      QueueExtends(q, op, intent[..|intent| - 1]);
    }
  }

  ghost predicate Answers(q: Queue, after: Queue, op: OpId, intent: Intent) {
    && (forall k :: k in after.rows && k > q.counter ==> Asks(intent, op, after.rows[k]))
    && (forall r :: r in intent && Runs(r) ==> HasRow(after.rows, Run(Some(op), r.ref, r.commit)))
  }

  /** The new rows are exactly the runs the intent asks for. */
  lemma {:induction false} QueueAsked(q: Queue, op: OpId, intent: Intent)
    requires forall k :: k in q.rows ==> k <= q.counter
    ensures Answers(q, QueueRuns(q, op, intent), op, intent)
  {
    if intent != [] {
      var front, last := intent[..|intent| - 1], intent[|intent| - 1];
      var before, after := QueueRuns(q, op, front), QueueRuns(q, op, intent);
      QueueExtends(q, op, front);
      QueueAsked(q, op, front);
      assert intent == front + [last];
      StillRows(before.rows, after.rows);
      forall k | k in after.rows && k > q.counter ensures Asks(intent, op, after.rows[k]) {
        if k <= before.counter {
          assert k in before.rows;
          assert Asks(front, op, before.rows[k]);
        } else {
          assert last in intent && Runs(last);
        }
      }
      if Runs(last) {
        assert after.rows[after.counter] == Run(Some(op), last.ref, last.commit);
      }
    }
  }

  lemma FrontDistinct(intent: Intent)
    requires intent != [] && DistinctRefs(ChangesOf(intent))
    ensures DistinctRefs(ChangesOf(intent[..|intent| - 1]))
    ensures forall r :: r in intent[..|intent| - 1] ==> r.ref != intent[|intent| - 1].ref
  {
    var front, n := intent[..|intent| - 1], |intent| - 1;
    forall i, j | 0 <= i < j < n ensures ChangesOf(front)[i].ref != ChangesOf(front)[j].ref {
      assert ChangesOf(intent)[i].ref != ChangesOf(intent)[j].ref;
    }
    forall r | r in front ensures r.ref != intent[n].ref {
      var i :| 0 <= i < n && front[i] == r;
      assert ChangesOf(intent)[i].ref != ChangesOf(intent)[n].ref;
    }
  }

  /** With distinct refs no ref gets two runs. */
  lemma {:induction false} QueueOnePerRef(q: Queue, op: OpId, intent: Intent)
    requires (forall k :: k in q.rows ==> k <= q.counter && q.rows[k].push != Some(op)) && OnePerRef(q.rows)
    requires DistinctRefs(ChangesOf(intent))
    ensures OnePerRef(QueueRuns(q, op, intent).rows)
  {
    if intent != [] {
      var front, last := intent[..|intent| - 1], intent[|intent| - 1];
      var before, after := QueueRuns(q, op, front), QueueRuns(q, op, intent);
      FrontDistinct(intent);
      QueueOnePerRef(q, op, front);
      QueueExtends(q, op, front);
      QueueAsked(q, op, front);
      forall k | k in before.rows && before.rows[k].push == Some(op) ensures before.rows[k].ref != last.ref {
        assert k > q.counter;
        assert Asks(front, op, before.rows[k]);
      }
    }
  }

  /** Recording a push leaves every run row as it was and adds, for each ref whose record
      asks for a run, exactly one row of that push. */
  lemma QueueRunsIsExact(q: Queue, op: OpId, intent: Intent, ref: Ref)
    requires (forall k :: k in q.rows ==> k <= q.counter && q.rows[k].push != Some(op)) && OnePerRef(q.rows)
    requires DistinctRefs(ChangesOf(intent))
    ensures var after := QueueRuns(q, op, intent);
            && (forall k :: k in q.rows ==> k in after.rows && after.rows[k] == q.rows[k])
            && (forall k :: k in after.rows && k !in q.rows ==> Asks(intent, op, after.rows[k]))
            && |RowsOf(after.rows, op, ref)| == if exists r :: r in intent && r.ref == ref && Runs(r) then 1 else 0
  {
    QueueExtends(q, op, intent);
    QueueAsked(q, op, intent);
    QueueOnePerRef(q, op, intent);
    var after := QueueRuns(q, op, intent);
    forall k | k in RowsOf(after.rows, op, ref) ensures exists r :: r in intent && r.ref == ref && Runs(r) {
      assert Asks(intent, op, after.rows[k]);
    }
    if r: Record :| r in intent && r.ref == ref && Runs(r) {
      RowFound(after.rows, op, r);
    }
    CountRows(after.rows, op, ref, exists r :: r in intent && r.ref == ref && Runs(r));
  }

  lemma RowFound(rows: map<nat, Run>, op: OpId, r: Record)
    requires HasRow(rows, Run(Some(op), r.ref, r.commit))
    ensures RowsOf(rows, op, r.ref) != {}
  {
    var k :| k in rows && rows[k] == Run(Some(op), r.ref, r.commit);
    assert k in RowsOf(rows, op, r.ref);
  }

  /** The numbers of a push's runs for a ref. */
  ghost function RowsOf(rows: map<nat, Run>, op: OpId, ref: Ref): set<nat> {
    set k | k in rows && rows[k].push == Some(op) && rows[k].ref == ref
  }

  lemma CountRows(rows: map<nat, Run>, op: OpId, ref: Ref, asked: bool)
    requires OnePerRef(rows) && (asked <==> RowsOf(rows, op, ref) != {})
    ensures |RowsOf(rows, op, ref)| == if asked then 1 else 0
  {
    if asked {
      var k :| k in RowsOf(rows, op, ref);
      assert RowsOf(rows, op, ref) == {k};
    }
  }

  /** Recording keeps waiting runs the newest of their refs. */
  lemma {:induction false} RecordingWaits(q: Queue, queued: set<nat>, op: OpId, intent: Intent, current: map<Ref, Oid>)
    requires Waiting(q.rows, queued) && forall k :: k in q.rows ==> k <= q.counter
    ensures Waiting(QueueRuns(q, op, intent).rows, QueuedAfter(q, queued, op, intent, current))
  {
    if intent != [] {
      var front, r := intent[..|intent| - 1], intent[|intent| - 1];
      RecordingWaits(q, queued, op, front, current);
      QueueExtends(q, op, front);
      OneMoreWaits(QueueRuns(q, op, front), QueuedAfter(q, queued, op, front, current), Run(Some(op), r.ref, r.commit), r.queues);
    }
  }

  lemma OneMoreWaits(q: Queue, queued: set<nat>, run: Run, queues: bool)
    requires Waiting(q.rows, queued) && forall k :: k in q.rows ==> k <= q.counter
    ensures Waiting(q.rows, Cancelled(queued, q.rows, run.ref))
    ensures Waiting(AddRun(q, run).rows, Cancelled(queued, q.rows, run.ref) + if queues then {q.counter + 1} else {})
  {
  }

  ghost predicate Deletes(intent: Intent, current: map<Ref, Oid>, ref: Ref) {
    exists r :: r in intent && r.ref == ref && r.to == 0 && ref !in current
  }

  /** A deleted ref that is gone has no waiting run left. */
  lemma {:induction false} DeletedIsCancelled(q: Queue, queued: set<nat>, op: OpId, intent: Intent, current: map<Ref, Oid>, ref: Ref)
    requires Waiting(q.rows, queued) && forall k :: k in q.rows ==> k <= q.counter
    requires DistinctRefs(ChangesOf(intent)) && Deletes(intent, current, ref)
    ensures !Waits(QueueRuns(q, op, intent).rows, QueuedAfter(q, queued, op, intent, current), ref)
  {
    var front, r := intent[..|intent| - 1], intent[|intent| - 1];
    FrontDistinct(intent);
    QueueExtends(q, op, front);
    RecordingWaits(q, queued, op, front, current);
    assert intent == front + [r];
    if r.ref != ref {
      assert Deletes(front, current, ref);
      DeletedIsCancelled(q, queued, op, front, current, ref);
    }
  }

  /** A ref the push does not touch keeps its waiting run. */
  lemma {:induction false} OthersStillWait(q: Queue, queued: set<nat>, op: OpId, intent: Intent, current: map<Ref, Oid>, k: nat)
    requires k in q.rows && k <= q.counter && forall r :: r in intent ==> r.ref != q.rows[k].ref
    ensures k in QueuedAfter(q, queued, op, intent, current) <==> k in queued
  {
    if intent != [] {
      var front, r := intent[..|intent| - 1], intent[|intent| - 1];
      assert r in intent;
      QueueExtends(q, op, front);
      OthersStillWait(q, queued, op, front, current, k);
    }
  }

  ghost predicate Waits(rows: map<nat, Run>, queued: set<nat>, ref: Ref) {
    exists k :: k in queued && k in rows && rows[k].ref == ref
  }

  /** Recorded rows name only what the intent names. */
  lemma QueuedRunsAreNamed(q: Queue, op: OpId, intent: Intent)
    requires forall k :: k in q.rows ==> k <= q.counter
    ensures var after := QueueRuns(q, op, intent).rows;
            forall k :: k in after ==> (k in q.rows && after[k] == q.rows[k]) || after[k].commit == 0 || after[k].commit in Named(intent)
  {
    QueueExtends(q, op, intent);
    QueueAsked(q, op, intent);
    var after := QueueRuns(q, op, intent).rows;
    forall k | k in after && k !in q.rows ensures after[k].commit == 0 || after[k].commit in Named(intent) {
      assert Asks(intent, op, after[k]);
    }
  }

  lemma MadeOnce(past: History, op: OpId, after: History)
    requires Once(past) && op in past.intents && op in past.applied && op !in past.recorded
    requires after == past.(recorded := past.recorded + [op], rows := after.rows)
    ensures Once(after)
  {
  }

  /** The whole past's rows after recording: those before and the new ones. */
  lemma RecordedOnce(runs: map<nat, Run>, counter: nat, past: History, op: OpId, intent: Intent, after: History)
    requires RowsOnce(runs, counter, past) && op in past.intents && op !in past.recorded && intent == past.intents[op]
    requires DistinctRefs(ChangesOf(intent))
    requires after == past.(recorded := past.recorded + [op], rows := past.rows + QueueRuns(Queue(runs, counter), op, intent).rows)
    ensures RowsOnce(QueueRuns(Queue(runs, counter), op, intent).rows, QueueRuns(Queue(runs, counter), op, intent).counter, after)
  {
    QueueAlike(runs, past.rows, counter, op, intent);
    var all := QueueRuns(Queue(past.rows, counter), op, intent);
    QueueExtends(Queue(past.rows, counter), op, intent);
    QueueAsked(Queue(past.rows, counter), op, intent);
    QueueOnePerRef(Queue(past.rows, counter), op, intent);
    QueueExtends(Queue(runs, counter), op, intent);
    assert after.rows == all.rows;
    StillRows(past.rows, all.rows);
    RowsAskedStill(past, op, intent, after, counter);
  }

  lemma RowsAskedStill(past: History, op: OpId, intent: Intent, after: History, counter: nat)
    requires RowsAsked(past.rows, past) && AskedRows(past.rows, past) && op in past.intents && intent == past.intents[op]
    requires after.intents == past.intents && after.recorded == past.recorded + [op]
    requires forall k :: k in past.rows ==> k <= counter && k in after.rows && after.rows[k] == past.rows[k]
    requires forall k :: k in after.rows && k <= counter ==> k in past.rows
    requires forall k :: k in after.rows && k > counter ==> Asks(intent, op, after.rows[k])
    requires forall r :: r in intent && Runs(r) ==> HasRow(after.rows, Run(Some(op), r.ref, r.commit))
    ensures RowsAsked(after.rows, after) && AskedRows(after.rows, after)
  {
    StillRows(past.rows, after.rows);
  }

  /** Queueing onto the current rows and onto all rows of the past adds the same rows. */
  lemma {:induction false} QueueAlike(runs: map<nat, Run>, rows: map<nat, Run>, counter: nat, op: OpId, intent: Intent)
    requires Numbered(runs, counter, rows)
    ensures var a, b := QueueRuns(Queue(runs, counter), op, intent), QueueRuns(Queue(rows, counter), op, intent);
            b.counter == a.counter && b.rows == rows + a.rows && Numbered(a.rows, a.counter, b.rows)
  {
    if intent != [] {
      QueueAlike(runs, rows, counter, op, intent[..|intent| - 1]);
    } else {
      assert rows + runs == rows;
    }
  }

  lemma RecordedRows(pins: set<Oid>, db: Db, op: OpId, intent: Intent)
    requires Covers(pins, db.runs, db.deployments, db.pushes) && Named(intent) <= pins
    requires forall k :: k in db.runs ==> k <= db.counter
    ensures Covers(pins, QueueRuns(Queue(db.runs, db.counter), op, intent).rows, db.deployments, db.pushes[op := intent])
  {
    QueuedRunsAreNamed(Queue(db.runs, db.counter), op, intent);
  }

  /** Completing the one unfinished operation leaves none. */
  lemma Completed(ops: map<OpId, Operation>, pushes: map<OpId, Intent>, past: History, op: OpId, outcome: Outcome,
                  after: map<OpId, Operation>, rows: map<OpId, Intent>, later: History)
    requires Journal(ops, pushes, past) && IsPending(ops, op)
    requires after == ops[op := ops[op].(outcome := outcome)]
    requires (outcome == Recorded && rows == pushes[op := ops[op].intent]
              && later == past.(recorded := past.recorded + [op], rows := later.rows))
          || (((outcome == Rejected && past.outsider) || outcome == Abandoned) && rows == pushes && later == past.(refused := past.refused + {op}))
    ensures Journal(after, rows, later)
    ensures forall o :: !IsPending(after, o)
  {
    forall o | o in after ensures !IsPending(after, o) {
      if o != op {
        assert !IsPending(ops, o);
      }
    }
  }

  lemma KeepsRecord(s: State)
    requires Inv(s) && CanRecord(s)
    ensures Inv(DoRecord(s))
  {
    var t := DoRecord(s);
    var op := s.lock.value.op;
    MadeOnce(s.past, op, t.past);
    RecordedOnce(s.db.runs, s.db.counter, s.past, op, s.db.ops[op].intent, t.past);
    RecordedRows(s.git.pins, s.db, op, s.db.ops[op].intent);
    RecordingWaits(Queue(s.db.runs, s.db.counter), s.db.queued, op, s.db.ops[op].intent, IndexOf(s.peel, s.git.refs));
    Completed(s.db.ops, s.db.pushes, s.past, op, Recorded, t.db.ops, t.db.pushes, t.past);
  }

  lemma KeepsLocked(s: State, step: Step)
    requires Inv(s) && Enabled(s, step)
    requires step.Begin? || step.ApplyTakes? || step.RecordTx? || step.RejectTx? || step.AbandonTx?
    ensures Inv(Effect(s, step))
  {
    match step
    case Begin(op) => KeepsBegin(s, op);
    case ApplyTakes(replyLost) => KeepsApply(s, replyLost);
    case RecordTx => KeepsRecord(s);
    case RejectTx => KeepsRefusal(s, Rejected);
    case AbandonTx => KeepsRefusal(s, Abandoned);
  }

  lemma KeepsOther(s: State, step: Step)
    requires Inv(s) && Enabled(s, step)
    requires step.PinTx? || step.StartTx? || step.ReconcileTx? || step.NoteError? || step.ForgetOperation? || step.Outsider?
    ensures Inv(Effect(s, step))
  {
    match step
    case PinTx => KeepsPin(s);
    case StartTx(queues) => KeepsStart(s, queues);
    case ReconcileTx => KeepsReconcile(s);
    case NoteError(op) => KeepsNote(s, op);
    case ForgetOperation(op) => KeepsForgetOperation(s, op);
    case Outsider(refs) => KeepsOutsider(s, refs);
  }

  lemma Keeps(s: State, step: Step)
    requires Inv(s) && Enabled(s, step)
    ensures Inv(Effect(s, step))
  {
    if step.Acquire? || step.Release? || step.Admit? || step.CheckPush? || step.Resume? {
      KeepsLocking(s, step);
    } else if step.SeeReceipt? || step.SeeNoReceipt? || step.CheckPasses? || step.CheckFails? || step.ApplyFails? || step.Despair? {
      KeepsLooking(s, step);
    } else if step.ListObjects? || step.ListOperations? {
      KeepsListing(s, step);
    } else if step.Begin? || step.ApplyTakes? || step.RecordTx? || step.RejectTx? || step.AbandonTx? {
      KeepsLocked(s, step);
    } else if step.Deploy? {
      KeepsDeploy(s, step);
    } else if step.ForgetRun? || step.LeaveQueue? {
      KeepsForgetRun(s, step);
    } else if step.ForgetDeployment? {
      KeepsForgetDeployment(s, step);
    } else if step.ForgetPush? {
      KeepsForgetPush(s, step);
    } else if step.SyncRead? || step.SyncTx? || step.SyncDrop? {
      KeepsSync(s, step);
    } else {
      KeepsOther(s, step);
    }
  }

  // ----- whole runs -----

  /** Before the first operation: the index is Git's refs and every row's objects are pinned. */
  ghost predicate Initial(s: State) {
    && (forall r :: r in s.git.refs ==> s.git.refs[r] != 0)
    && s.git.receipts == map[] && s.db.ops == map[] && s.db.pushes == map[]
    && Covers(s.git.pins, s.db.runs, s.db.deployments, s.db.pushes)
    && s.db.index == IndexOf(s.peel, s.git.refs)
    && s.lock.None? && s.reader.None?
    && (forall r :: r in s.db.runs ==> r <= s.db.counter && s.db.runs[r].push.None?) && Waiting(s.db.runs, s.db.queued)
    && s.past == History(map[], [], [], {}, s.db.runs, false)
  }

  ghost predicate Possible(s: State, steps: seq<Step>)
    decreases |steps|
  {
    steps == [] || (Enabled(s, steps[0]) && Possible(Effect(s, steps[0]), steps[1..]))
  }

  ghost function After(s: State, steps: seq<Step>): State
    requires Possible(s, steps)
    decreases |steps|
  {
    if steps == [] then s else After(Effect(s, steps[0]), steps[1..])
  }

  lemma {:induction false} AlwaysInv(s: State, steps: seq<Step>)
    requires Inv(s) && Possible(s, steps)
    ensures Inv(After(s, steps))
    decreases |steps|
  {
    if steps != [] {
      Keeps(s, steps[0]);
      AlwaysInv(Effect(s, steps[0]), steps[1..]);
    }
  }

  lemma Reaches(s: State, steps: seq<Step>)
    requires Initial(s) && Possible(s, steps)
    ensures Inv(After(s, steps))
  {
    assert !InFlight(s.db.ops, s.past);
    AlwaysInv(s, steps);
  }

  lemma NoRepeatCounts(s: seq<OpId>, op: OpId)
    requires NoRepeat(s)
    ensures multiset(s)[op] <= 1
  {
    if s != [] {
      var front := s[..|s| - 1];
      NoRepeatCounts(front, op);
      assert s == front + [s[|s| - 1]];
      if s[|s| - 1] == op {
        assert op !in front;
        assert op !in multiset(front);
      }
    }
  }

  /** The operation was recorded and its intent asks for a run of the ref. */
  ghost predicate RunWanted(past: History, op: OpId, ref: Ref) {
    op in past.recorded && op in past.intents && exists r :: r in past.intents[op] && r.ref == ref && Runs(r)
  }

  /** In every run, with crashes and lost replies anywhere: an operation changes Git at
      most once and is recorded at most once; what was rejected or abandoned never changed
      Git; while its row exists the receipt is there exactly when Git was changed; and over
      the whole past the table held exactly one run row of the operation for each ref that
      asks for one, so it never holds two. */
  lemma ExactlyOnce(s: State, steps: seq<Step>, op: OpId, ref: Ref)
    requires Initial(s) && Possible(s, steps)
    ensures var t := After(s, steps);
            && multiset(t.past.applied)[op] <= 1
            && multiset(t.past.recorded)[op] <= 1
            && (op in t.past.recorded ==> op in t.past.applied)
            && (op in t.past.refused ==> op !in t.past.applied && op !in t.past.recorded)
            && (op in t.db.ops ==> (op in t.git.receipts <==> op in t.past.applied))
            && |RowsOf(t.past.rows, op, ref)| == (if RunWanted(t.past, op, ref) then 1 else 0)
            && RowsOf(t.db.runs, op, ref) <= RowsOf(t.past.rows, op, ref)
            && |RowsOf(t.db.runs, op, ref)| <= 1
  {
    Reaches(s, steps);
    var t := After(s, steps);
    NoRepeatCounts(t.past.applied, op);
    NoRepeatCounts(t.past.recorded, op);
    RowsCounted(t.db.runs, t.db.counter, t.past, op, ref);
  }

  lemma RowsCounted(runs: map<nat, Run>, counter: nat, past: History, op: OpId, ref: Ref)
    requires RowsOnce(runs, counter, past)
    ensures |RowsOf(past.rows, op, ref)| == if RunWanted(past, op, ref) then 1 else 0
    ensures RowsOf(runs, op, ref) <= RowsOf(past.rows, op, ref) && |RowsOf(runs, op, ref)| <= 1
  {
    var rows := past.rows;
    if RunWanted(past, op, ref) {
      var r :| r in past.intents[op] && r.ref == ref && Runs(r);
      RowFound(rows, op, r);
    }
    forall k | k in RowsOf(rows, op, ref) ensures RunWanted(past, op, ref) {
      assert Asks(past.intents[op], op, rows[k]);
    }
    CountRows(rows, op, ref, RunWanted(past, op, ref));
    assert OnePerRef(runs);
    CountRows(runs, op, ref, RowsOf(runs, op, ref) != {});
  }

  /** Every run row stays, new ones are runs the intent asks for, and the ref has exactly
      one row of the operation if the intent asks for one, else none. */
  ghost predicate RunsAdded(t: State, u: State, op: OpId, intent: Intent, ref: Ref) {
    && (forall k :: k in t.db.runs ==> k in u.db.runs && u.db.runs[k] == t.db.runs[k])
    && (forall k :: k in u.db.runs && k !in t.db.runs ==> Asks(intent, op, u.db.runs[k]))
    && |RowsOf(u.db.runs, op, ref)| == if exists r :: r in intent && r.ref == ref && Runs(r) then 1 else 0
  }

  /** Recording keeps every run row and, for each ref, leaves exactly the rows of the
      operation its intent asks for. */
  lemma RecordingAddsRuns(s: State, steps: seq<Step>, ref: Ref)
    requires Initial(s) && Possible(s, steps) && CanRecord(After(s, steps))
    ensures var t := After(s, steps);
            RunsAdded(t, DoRecord(t), t.lock.value.op, t.db.ops[t.lock.value.op].intent, ref)
  {
    Reaches(s, steps);
    RecordingFrom(After(s, steps), ref);
  }

  lemma RecordingFrom(t: State, ref: Ref)
    requires Journal(t.db.ops, t.db.pushes, t.past) && Once(t.past) && RowsOnce(t.db.runs, t.db.counter, t.past)
    requires CanRecord(t) && t.lock.value.op in t.past.applied
    ensures RunsAdded(t, DoRecord(t), t.lock.value.op, t.db.ops[t.lock.value.op].intent, ref)
  {
    var op := t.lock.value.op;
    NoRowsYet(t.db.runs, t.db.counter, t.past, op);
    QueueRunsIsExact(Queue(t.db.runs, t.db.counter), op, t.db.ops[op].intent, ref);
  }

  lemma NoRowsYet(runs: map<nat, Run>, counter: nat, past: History, op: OpId)
    requires RowsOnce(runs, counter, past) && op !in past.recorded
    ensures (forall k :: k in runs ==> k <= counter && runs[k].push != Some(op)) && OnePerRef(runs)
  {
  }

  /** In every run a waiting run is the newest run of its ref, so a ref has at most one. */
  lemma OneWaitingPerRef(s: State, steps: seq<Step>)
    requires Initial(s) && Possible(s, steps)
    ensures Waiting(After(s, steps).db.runs, After(s, steps).db.queued)
  {
    Reaches(s, steps);
  }

  /** Recording a push leaves no waiting run to a ref the push deleted, unless somebody else
      has put the ref back. */
  lemma DeletedRefsStopWaiting(s: State, steps: seq<Step>, r: Record)
    requires Initial(s) && Possible(s, steps) && CanRecord(After(s, steps))
    requires r in After(s, steps).db.ops[After(s, steps).lock.value.op].intent && r.to == 0
    ensures var t := After(s, steps);
            var u := DoRecord(t);
            && (r.ref !in t.git.refs ==> !Waits(u.db.runs, u.db.queued, r.ref))
            && (!t.past.outsider ==> r.ref !in t.git.refs)
  {
    Reaches(s, steps);
    DeletedFrom(After(s, steps), r);
  }

  lemma DeletedFrom(t: State, r: Record)
    requires InvButRows(t) && Informed(t) && RowsOnce(t.db.runs, t.db.counter, t.past) && Waiting(t.db.runs, t.db.queued)
    requires CanRecord(t) && r in t.db.ops[t.lock.value.op].intent && r.to == 0
    ensures r.ref !in t.git.refs ==> !Waits(DoRecord(t).db.runs, DoRecord(t).db.queued, r.ref)
    ensures !t.past.outsider ==> r.ref !in t.git.refs
  {
    var op := t.lock.value.op;
    if r.ref !in t.git.refs {
      assert Deletes(t.db.ops[op].intent, IndexOf(t.peel, t.git.refs), r.ref);
      DeletedIsCancelled(Queue(t.db.runs, t.db.counter), t.db.queued, op, t.db.ops[op].intent, IndexOf(t.peel, t.git.refs), r.ref);
    }
    assert !t.past.outsider ==> Expected(t.git.refs, t.db.ops[op].intent, true);
  }

  /** Whenever no operation is unfinished the index is Git's branches and tags. */
  lemma IndexIsGit(s: State, steps: seq<Step>)
    requires Initial(s) && Possible(s, steps) && !After(s, steps).past.outsider
    ensures var t := After(s, steps);
            !AnyPending(t.db.ops) ==> t.db.index == IndexOf(t.peel, t.git.refs)
  {
    Reaches(s, steps);
  }

  /** A holder about to record finds Git's refs where its receipt says: the error "git refs
      diverge from operation receipt" is unreachable, and so is every rejection. */
  lemma NeverDiverges(s: State, steps: seq<Step>)
    requires Initial(s) && Possible(s, steps) && !After(s, steps).past.outsider
    ensures var t := After(s, steps);
            && (t.lock.Some? && t.lock.value.Applied? && t.lock.value.op in t.db.ops ==>
                  Agrees(IndexOf(t.peel, t.git.refs), t.db.ops[t.lock.value.op].intent))
            && (t.lock.Some? ==> !t.lock.value.Moved?)
            && (forall op :: op in t.db.ops ==> t.db.ops[op].outcome != Rejected)
  {
    Reaches(s, steps);
    var t := After(s, steps);
    if t.lock.Some? && t.lock.value.Applied? {
      var op := t.lock.value.op;
      assert Expected(t.git.refs, t.db.ops[op].intent, true);
      assert Prepared(t.peel, t.past.intents[op]);
    }
  }

  /** If refs are moved behind the protocol's back, the divergence error is reachable. */
  lemma DivergesWithOutsider() returns (s: State, steps: seq<Step>)
    ensures Initial(s) && Possible(s, steps)
    ensures var t := After(s, steps);
            t.lock == Some(Applied(7)) && 7 in t.db.ops && !Agrees(IndexOf(t.peel, t.git.refs), t.db.ops[7].intent)
  {
    var main := Ref(true, "main");
    var intent := [Record(main, 0, 5, 5, true, true)];
    s := State(x => x, Git(map[], {}, map[]), Db(map[], map[], map[], map[], 0, {}, map[]), None, None,
               History(map[], [], [], {}, map[], false));
    var s1 := Effect(s, Acquire(PushJob(intent)));
    var s2 := Effect(s1, Admit);
    var s3 := Effect(s2, CheckPush);
    var s4, rest := DivergesOnceBegun(s3, intent);
    steps := Prepend(s2, CheckPush, rest);
    steps := Prepend(s1, Admit, steps);
    steps := Prepend(s, Acquire(PushJob(intent)), steps);
  }

  lemma DivergesOnceBegun(s: State, intent: Intent) returns (t: State, steps: seq<Step>)
    requires s.lock == Some(Checked(intent)) && s.past.intents == map[] && s.db.ops == map[]
    requires s.git.receipts == map[] && s.git.refs == map[]
    requires intent == [Record(Ref(true, "main"), 0, 5, 5, true, true)]
    ensures Possible(s, steps) && t == After(s, steps)
    ensures t.lock == Some(Applied(7)) && 7 in t.db.ops && !Agrees(IndexOf(t.peel, t.git.refs), t.db.ops[7].intent)
  {
    var s4 := DoBegin(s, 7);
    var s5 := Effect(s4, SeeNoReceipt);
    var s6 := Effect(s5, CheckPasses);
    t, steps := DivergesOnceClear(s6, intent);
    steps := Prepend(s5, CheckPasses, steps);
    steps := Prepend(s4, SeeNoReceipt, steps);
    steps := Prepend(s, Begin(7), steps);
  }

  lemma DivergesOnceClear(s: State, intent: Intent) returns (t: State, steps: seq<Step>)
    requires s.lock == Some(Clear(7)) && 7 in s.db.ops && s.db.ops[7].intent == intent
    requires s.git.receipts == map[] && s.git.refs == map[]
    requires intent == [Record(Ref(true, "main"), 0, 5, 5, true, true)]
    ensures Possible(s, steps) && t == After(s, steps)
    ensures t.lock == Some(Applied(7)) && 7 in t.db.ops && !Agrees(IndexOf(t.peel, t.git.refs), t.db.ops[7].intent)
  {
    var moved := DoApply(s, false);
    t := Effect(moved, Outsider(map[]));
    assert intent[0] in t.db.ops[7].intent && Runs(intent[0]);
    steps := Prepend(moved, Outsider(map[]), []);
    steps := Prepend(s, ApplyTakes(false), steps);
  }

  lemma Prepend(s: State, step: Step, rest: seq<Step>) returns (steps: seq<Step>)
    requires Enabled(s, step) && Possible(Effect(s, step), rest)
    ensures Possible(s, steps) && After(s, steps) == After(Effect(s, step), rest)
  {
    steps := [step] + rest;
    assert steps[1..] == rest;
  }

  /** In every run, every object a run, deployment or push-update row names is pinned in Git. */
  lemma NoDanglingHistory(s: State, steps: seq<Step>)
    requires Initial(s) && Possible(s, steps)
    ensures var t := After(s, steps);
            && (forall r :: r in t.db.runs && t.db.runs[r].commit != 0 ==> t.db.runs[r].commit in t.git.pins)
            && (forall d :: d in t.db.deployments && t.db.deployments[d] != 0 ==> t.db.deployments[d] in t.git.pins)
            && (forall op :: op in t.db.pushes ==> Updated(t.db.pushes[op]) <= t.git.pins)
  {
    Reaches(s, steps);
  }

  /** No step, reconciliation included, takes away the receipt of an operation whose row
      exists afterwards; and a finished operation never becomes unfinished or changes how
      it finished. */
  lemma ReceiptsAndOutcomesStay(s: State, steps: seq<Step>, step: Step, op: OpId)
    requires Initial(s) && Possible(s, steps) && Enabled(After(s, steps), step)
    ensures var t := After(s, steps);
            var u := Effect(t, step);
            && (op in t.git.receipts && op in u.db.ops ==> op in u.git.receipts && u.git.receipts[op] == t.git.receipts[op])
            && (op in t.db.ops && op in u.db.ops && !IsPending(t.db.ops, op) ==> u.db.ops[op] == t.db.ops[op])
  {
    Reaches(s, steps);
    var t := After(s, steps);
    if op in t.git.receipts && op in Effect(t, step).db.ops {
      ReceiptStays(t, step, op);
    }
    if op in t.db.ops && op in Effect(t, step).db.ops && !IsPending(t.db.ops, op) {
      OutcomeStays(t, step, op);
    }
  }

  /** Steps that write the journal of operations. */
  predicate Journals(step: Step) {
    step.Begin? || step.RecordTx? || step.RejectTx? || step.AbandonTx? || step.NoteError? || step.ForgetOperation?
  }

  /** Steps that only read, and move the holder of the lock. */
  predicate Looks(step: Step) {
    step.Acquire? || step.Release? || step.Admit? || step.CheckPush? || step.Resume? || step.SeeReceipt? || step.SeeNoReceipt?
    || step.CheckPasses? || step.CheckFails? || step.ApplyFails? || step.Despair? || step.ListObjects? || step.ListOperations?
  }

  lemma ReceiptStays(t: State, step: Step, op: OpId)
    requires Informed(t) && Enabled(t, step) && op in t.git.receipts && op in Effect(t, step).db.ops
    ensures op in Effect(t, step).git.receipts && Effect(t, step).git.receipts[op] == t.git.receipts[op]
  {
    if step.ReconcileTx? || step.ApplyTakes? {
      GitStepKeepsReceipt(t, step, op);
    } else if Journals(step) {
      JournalKeepsReceipts(t, step);
    } else if Looks(step) {
      LooksKeep(t, step);
    } else {
      RowsKeep(t, step);
    }
  }

  lemma GitStepKeepsReceipt(t: State, step: Step, op: OpId)
    requires Informed(t) && Enabled(t, step) && (step.ReconcileTx? || step.ApplyTakes?) && op in t.git.receipts && op in t.db.ops
    ensures op in Effect(t, step).git.receipts && Effect(t, step).git.receipts[op] == t.git.receipts[op]
  {
  }

  lemma GitStepKeepsOps(t: State, step: Step)
    requires Enabled(t, step) && (step.ReconcileTx? || step.ApplyTakes?)
    ensures Effect(t, step).db.ops == t.db.ops
  {
  }

  lemma JournalKeepsReceipts(t: State, step: Step)
    requires Enabled(t, step) && Journals(step)
    ensures Effect(t, step).git == t.git
  {
  }

  lemma LooksKeep(t: State, step: Step)
    requires Enabled(t, step) && Looks(step)
    ensures Effect(t, step).git == t.git && Effect(t, step).db == t.db
  {
  }

  lemma RowsKeep(t: State, step: Step)
    requires Enabled(t, step) && !Journals(step) && !Looks(step) && !step.ReconcileTx? && !step.ApplyTakes?
    ensures Effect(t, step).git.receipts == t.git.receipts && Effect(t, step).db.ops == t.db.ops
  {
  }

  lemma OutcomeStays(t: State, step: Step, op: OpId)
    requires Informed(t) && Journal(t.db.ops, t.db.pushes, t.past) && Enabled(t, step)
    requires op in t.db.ops && op in Effect(t, step).db.ops && !IsPending(t.db.ops, op)
    ensures Effect(t, step).db.ops[op] == t.db.ops[op]
  {
    if step.ReconcileTx? || step.ApplyTakes? {
      GitStepKeepsOps(t, step);
    } else if Journals(step) {
      JournalStepKeepsOutcome(t, step, op);
    } else if Looks(step) {
      LooksKeep(t, step);
    } else {
      RowsKeep(t, step);
    }
  }

  lemma JournalStepKeepsOutcome(t: State, step: Step, op: OpId)
    requires Journal(t.db.ops, t.db.pushes, t.past) && Enabled(t, step) && Journals(step)
    requires op in t.db.ops && op in Effect(t, step).db.ops && !IsPending(t.db.ops, op)
    ensures Effect(t, step).db.ops[op] == t.db.ops[op]
  {
    if step.RecordTx? || step.RejectTx? || step.AbandonTx? {
      ClosingChangesOne(t, step);
    } else if step.Begin? {
      assert op in t.past.intents;
    }
  }

  lemma ClosingChangesOne(t: State, step: Step)
    requires Enabled(t, step) && (step.RecordTx? || step.RejectTx? || step.AbandonTx?)
    ensures IsPending(t.db.ops, t.lock.value.op)
    ensures forall o :: o in t.db.ops && o != t.lock.value.op ==> o in Effect(t, step).db.ops && Effect(t, step).db.ops[o] == t.db.ops[o]
  {
  }
}
