/** What every step of the push protocol does to Git and to the rows, one by one. */
module PushEffects {
  import opened Options
  import opened PushProtocol
  import opened PushSafety

  // ----- Git -----

  ghost predicate Touches(intent: Intent, ref: Ref) {
    exists i :: 0 <= i < |intent| && intent[i].ref == ref
  }

  /** The object is one that the push's rows name. */
  ghost predicate UpdatedBy(intent: Intent, h: Oid) {
    h != 0 && exists i :: 0 <= i < |intent| && (intent[i].from == h || intent[i].to == h)
  }

  ghost predicate NamedBy(intent: Intent, h: Oid) {
    h != 0 && exists i :: 0 <= i < |intent| && (intent[i].from == h || intent[i].to == h || intent[i].commit == h)
  }

  /** Every ref of the intent lands where its record says, and no other ref moves. */
  ghost predicate RefsMoved(refs: map<Ref, Oid>, after: map<Ref, Oid>, intent: Intent) {
    && (forall i :: 0 <= i < |intent| && intent[i].to != 0 ==> intent[i].ref in after && after[intent[i].ref] == intent[i].to)
    && (forall i :: 0 <= i < |intent| && intent[i].to == 0 ==> intent[i].ref !in after)
    && (forall ref :: ref in after && !Touches(intent, ref) ==> ref in refs && after[ref] == refs[ref])
    && (forall ref :: ref in refs && !Touches(intent, ref) ==> ref in after)
  }

  /** Every ref was where its record expects it, and none is named twice. */
  ghost predicate RefsExpected(refs: map<Ref, Oid>, intent: Intent) {
    && (forall i :: 0 <= i < |intent| ==> if intent[i].ref in refs then refs[intent[i].ref] == intent[i].from else intent[i].from == 0)
    && (forall i, j :: 0 <= i < j < |intent| ==> intent[i].ref != intent[j].ref)
  }

  /** The Git transaction of a push: its refs, its pins and its receipt. */
  ghost predicate GitMoved(git: Git, after: Git, op: OpId, intent: Intent) {
    && RefsExpected(git.refs, intent) && RefsMoved(git.refs, after.refs, intent)
    && (forall h :: h in after.pins <==> h in git.pins || NamedBy(intent, h))
    && op !in git.receipts && after.receipts.Keys == git.receipts.Keys + {op} && after.receipts[op] == intent
    && (forall o :: o in git.receipts ==> after.receipts[o] == git.receipts[o])
  }

  lemma UpdatedMeans(intent: Intent, h: Oid)
    ensures h in Updated(intent) <==> UpdatedBy(intent, h)
  {
    if UpdatedBy(intent, h) {
      var i :| 0 <= i < |intent| && (intent[i].from == h || intent[i].to == h);
      assert intent[i] in intent;
    }
  }

  lemma NamedMeans(intent: Intent, h: Oid)
    ensures h in Named(intent) <==> NamedBy(intent, h)
  {
    UpdatedMeans(intent, h);
    if NamedBy(intent, h) {
      var i :| 0 <= i < |intent| && (intent[i].from == h || intent[i].to == h || intent[i].commit == h);
      assert intent[i] in intent;
    }
  }

  lemma MoveAllMeans(refs: map<Ref, Oid>, intent: Intent)
    requires DistinctRefs(ChangesOf(intent))
    ensures RefsMoved(refs, MoveAll(refs, ChangesOf(intent)), intent)
  {
    var changes := ChangesOf(intent);
    var after := MoveAll(refs, changes);
    forall i | 0 <= i < |intent|
      ensures if intent[i].to == 0 then intent[i].ref !in after else intent[i].ref in after && after[intent[i].ref] == intent[i].to
    {
      assert changes[i] == Change(intent[i].ref, intent[i].from, intent[i].to);
      MoveAllLands(refs, changes, intent[i].ref);
    }
    forall ref | !Touches(intent, ref) ensures (ref in after <==> ref in refs) && (ref in refs ==> after[ref] == refs[ref]) {
      assert forall i :: 0 <= i < |changes| ==> changes[i].ref == intent[i].ref;
      MoveAllLands(refs, changes, ref);
    }
  }

  lemma AcceptedExpects(git: Git, op: OpId, intent: Intent)
    requires GitAccepts(git, op, intent)
    ensures RefsExpected(git.refs, intent)
  {
    var changes := ChangesOf(intent);
    assert forall i :: 0 <= i < |intent| ==> changes[i] == Change(intent[i].ref, intent[i].from, intent[i].to);
    assert forall i :: 0 <= i < |intent| ==> ChangeFits(git.refs, changes[i]);
    assert forall i, j :: 0 <= i < j < |intent| ==> changes[i].ref != changes[j].ref;
  }

  lemma ApplyMeans(git: Git, op: OpId, intent: Intent)
    requires GitAccepts(git, op, intent)
    ensures GitMoved(git, GitApply(git, op, intent), op, intent)
  {
    AcceptedExpects(git, op, intent);
    MoveAllMeans(git.refs, intent);
    forall h ensures h in GitApply(git, op, intent).pins <==> h in git.pins || NamedBy(intent, h) {
      NamedMeans(intent, h);
    }
  }

  // ----- reconciling -----

  ghost predicate PushNames(pushes: map<OpId, Intent>, h: Oid) {
    exists op :: op in pushes && UpdatedBy(pushes[op], h)
  }

  /** Some run, deployment, index or push-update row names the object. */
  ghost predicate RowNames(db: Db, h: Oid) {
    || (exists r :: r in db.runs && db.runs[r].commit == h)
    || (exists d :: d in db.deployments && db.deployments[d] == h)
    || (exists r :: r in db.index && db.index[r] == h)
    || PushNames(db.pushes, h)
  }

  lemma RetainedMeans(db: Db, h: Oid)
    ensures h in Retained(db) <==> RowNames(db, h)
  {
    forall op | op in db.pushes ensures h in Updated(db.pushes[op]) <==> UpdatedBy(db.pushes[op], h) {
      UpdatedMeans(db.pushes[op], h);
    }
  }

  /** Refs stay, what the listed rows name is pinned and nothing else is, and of the receipts
      those of listed operations stay. */
  ghost predicate Pruned(git: Git, after: Git, rows: Db, ops: map<OpId, Operation>) {
    && after.refs == git.refs
    && (forall h :: h in after.pins <==> h != 0 && RowNames(rows, h))
    && (forall o :: o in after.receipts <==> o in git.receipts && o in ops)
    && (forall o :: o in after.receipts ==> after.receipts[o] == git.receipts[o])
  }

  lemma ReconcileMeans(git: Git, rows: Db, ops: map<OpId, Operation>)
    ensures Pruned(git, GitReconcile(git, Retained(rows), ops.Keys), rows, ops)
  {
    forall h ensures h in Retained(rows) <==> RowNames(rows, h) {
      RetainedMeans(rows, h);
    }
  }

  /** Steps that neither list objects nor operations. */
  ghost predicate NoListing(steps: seq<Step>) {
    forall i :: 0 <= i < |steps| ==> !steps[i].ListObjects? && !steps[i].ListOperations?
  }

  ghost predicate ListsObjects(s: State, objects: set<Oid>) {
    s.lock.Some? ==> (s.lock.value.Listed? || s.lock.value.ListedAll? ==> s.lock.value.objects == objects)
  }

  ghost predicate ListsOperations(s: State, operations: set<OpId>) {
    s.lock.Some? ==> (s.lock.value.ListedAll? ==> s.lock.value.operations == operations)
  }

  lemma ListingStep(s: State, step: Step, objects: set<Oid>, operations: set<OpId>)
    requires Enabled(s, step) && !step.ListObjects?
    ensures ListsObjects(s, objects) ==> ListsObjects(Effect(s, step), objects)
    ensures ListsOperations(s, operations) && !step.ListOperations? ==> ListsOperations(Effect(s, step), operations)
  {
  }

  lemma {:induction false} ListingStays(s: State, steps: seq<Step>, objects: set<Oid>, operations: set<OpId>)
    requires Possible(s, steps) && NoListing(steps)
    ensures ListsObjects(s, objects) ==> ListsObjects(After(s, steps), objects)
    ensures ListsOperations(s, operations) ==> ListsOperations(After(s, steps), operations)
    decreases |steps|
  {
    if steps != [] {
      ListingStep(s, steps[0], objects, operations);
      ListingStays(Effect(s, steps[0]), steps[1..], objects, operations);
    }
  }

  /** Whatever others do while a reconciliation lists the rows and then works on Git, it pins
      exactly what the rows named when it listed them, and keeps exactly the receipts of the
      operations there were when it listed those. */
  lemma PruneIsExact(a: State, first: seq<Step>, second: seq<Step>)
    requires Enabled(a, ListObjects) && Possible(Effect(a, ListObjects), first) && NoListing(first)
    requires var b := After(Effect(a, ListObjects), first);
             && Enabled(b, ListOperations) && Possible(Effect(b, ListOperations), second) && NoListing(second)
             && Enabled(After(Effect(b, ListOperations), second), ReconcileTx)
    ensures var b := After(Effect(a, ListObjects), first);
            var c := After(Effect(b, ListOperations), second);
            Pruned(c.git, Effect(c, ReconcileTx).git, a.db, b.db.ops) && Effect(c, ReconcileTx).db == c.db
  {
    var b := After(Effect(a, ListObjects), first);
    var c := After(Effect(b, ListOperations), second);
    ListingStays(Effect(a, ListObjects), first, Retained(a.db), {});
    ListingStep(b, ListOperations, Retained(a.db), {});
    ListingStays(Effect(b, ListOperations), second, Retained(a.db), b.db.ops.Keys);
    ReconcileMeans(c.git, a.db, b.db.ops);
  }

  // ----- recording -----

  /** How many runs the intent starts. */
  ghost function Starting(intent: Intent): nat {
    if intent == [] then 0
    else
      var r := intent[|intent| - 1];
      Starting(intent[..|intent| - 1]) + if r.to != 0 && r.runOnPush then 1 else 0
  }

  lemma {:induction false} StartingGrows(intent: Intent, i: nat)
    requires i <= |intent|
    ensures Starting(intent[..i]) <= Starting(intent)
  {
    if i < |intent| {
      assert intent[..|intent| - 1][..i] == intent[..i];
      StartingGrows(intent[..|intent| - 1], i);
    } else {
      assert intent[..i] == intent;
    }
  }

  /** The number under which the record's run is created. */
  ghost function NumberOf(counter: nat, intent: Intent, i: nat): nat
    requires i < |intent|
  {
    counter + Starting(intent[..i + 1])
  }

  /** The records that start a run get the next numbers in their order; no other row appears
      or changes. */
  ghost predicate RunsRecorded(q: Queue, after: Queue, op: OpId, intent: Intent) {
    && after.counter == q.counter + Starting(intent)
    && (forall k :: k in after.rows <==> k in q.rows || q.counter < k <= after.counter)
    && (forall k :: k in q.rows ==> k in after.rows && after.rows[k] == q.rows[k])
    && (forall i :: 0 <= i < |intent| && intent[i].to != 0 && intent[i].runOnPush ==>
          var n := NumberOf(q.counter, intent, i);
          q.counter < n <= after.counter && n in after.rows && after.rows[n] == Run(Some(op), intent[i].ref, intent[i].commit))
  }

  /** A run waiting for the ref is superseded by a new one, or its ref is gone. */
  ghost predicate Supplants(intent: Intent, current: map<Ref, Oid>, ref: Ref) {
    exists i :: 0 <= i < |intent| && intent[i].ref == ref && ((intent[i].to != 0 && intent[i].runOnPush) || (intent[i].to == 0 && ref !in current))
  }

  /** Earlier runs wait unless the push supplants them, new ones if they can proceed. */
  ghost predicate WaitingRecorded(q: Queue, queued: set<nat>, waiting: set<nat>, intent: Intent, current: map<Ref, Oid>) {
    && (forall k :: k in q.rows ==> (k in waiting <==> k in queued && !Supplants(intent, current, q.rows[k].ref)))
    && (forall i :: 0 <= i < |intent| && intent[i].to != 0 && intent[i].runOnPush ==>
          (NumberOf(q.counter, intent, i) in waiting <==> intent[i].queues))
    && (forall k :: k in waiting ==> k in q.rows || q.counter < k <= q.counter + Starting(intent))
  }

  lemma NumberOfFront(counter: nat, intent: Intent, i: nat)
    requires i < |intent| - 1
    ensures NumberOf(counter, intent, i) == NumberOf(counter, intent[..|intent| - 1], i) <= counter + Starting(intent[..|intent| - 1])
  {
    var front := intent[..|intent| - 1];
    assert front[..i + 1] == intent[..i + 1];
    StartingGrows(front, i + 1);
  }

  lemma {:induction false} QueueRunsMeans(q: Queue, op: OpId, intent: Intent)
    requires forall k :: k in q.rows ==> k <= q.counter
    ensures RunsRecorded(q, QueueRuns(q, op, intent), op, intent)
  {
    if intent != [] {
      var n := |intent| - 1;
      var front, before, after := intent[..n], QueueRuns(q, op, intent[..n]), QueueRuns(q, op, intent);
      QueueRunsMeans(q, op, front);
      assert intent[..n + 1] == intent;
      forall i | 0 <= i < |intent| && intent[i].to != 0 && intent[i].runOnPush
        ensures var k := NumberOf(q.counter, intent, i);
                q.counter < k <= after.counter && k in after.rows && after.rows[k] == Run(Some(op), intent[i].ref, intent[i].commit)
      {
        if i < n {
          assert front[i] == intent[i];
          NumberOfFront(q.counter, intent, i);
        }
      }
    }
  }

  lemma SupplantsOneMore(intent: Intent, current: map<Ref, Oid>, ref: Ref)
    requires intent != []
    ensures var r := intent[|intent| - 1];
            Supplants(intent, current, ref) <==>
              Supplants(intent[..|intent| - 1], current, ref)
              || (r.ref == ref && ((r.to != 0 && r.runOnPush) || (r.to == 0 && ref !in current)))
  {
    var front := intent[..|intent| - 1];
    if Supplants(front, current, ref) {
      var i :| 0 <= i < |front| && front[i].ref == ref && ((front[i].to != 0 && front[i].runOnPush) || (front[i].to == 0 && ref !in current));
      assert intent[i] == front[i];
    }
    if Supplants(intent, current, ref) {
      var i :| 0 <= i < |intent| && intent[i].ref == ref && ((intent[i].to != 0 && intent[i].runOnPush) || (intent[i].to == 0 && ref !in current));
      assert i < |front| ==> front[i] == intent[i];
    }
  }

  lemma {:induction false} QueuedAfterMeans(q: Queue, queued: set<nat>, op: OpId, intent: Intent, current: map<Ref, Oid>)
    requires (forall k :: k in q.rows ==> k <= q.counter) && (forall k :: k in queued ==> k in q.rows)
    requires DistinctRefs(ChangesOf(intent))
    ensures WaitingRecorded(q, queued, QueuedAfter(q, queued, op, intent, current), intent, current)
  {
    if intent != [] {
      var n := |intent| - 1;
      var front, before := intent[..n], QueueRuns(q, op, intent[..n]);
      var waited := QueuedAfter(q, queued, op, front, current);
      FrontDistinct(intent);
      QueuedAfterMeans(q, queued, op, front, current);
      QueueRunsMeans(q, op, front);
      WaitingOld(q, queued, op, intent, current);
      WaitingNew(q, queued, op, intent, current);
    }
  }

  lemma WaitingOld(q: Queue, queued: set<nat>, op: OpId, intent: Intent, current: map<Ref, Oid>)
    requires intent != [] && (forall k :: k in q.rows ==> k <= q.counter)
    requires WaitingRecorded(q, queued, QueuedAfter(q, queued, op, intent[..|intent| - 1], current), intent[..|intent| - 1], current)
    requires RunsRecorded(q, QueueRuns(q, op, intent[..|intent| - 1]), op, intent[..|intent| - 1])
    ensures var waiting := QueuedAfter(q, queued, op, intent, current);
            && (forall k :: k in q.rows ==> (k in waiting <==> k in queued && !Supplants(intent, current, q.rows[k].ref)))
            && (forall k :: k in waiting ==> k in q.rows || q.counter < k <= q.counter + Starting(intent))
  {
    forall k | k in q.rows
      ensures k in QueuedAfter(q, queued, op, intent, current) <==> k in queued && !Supplants(intent, current, q.rows[k].ref)
    {
      SupplantsOneMore(intent, current, q.rows[k].ref);
    }
  }

  lemma WaitingEarlier(q: Queue, queued: set<nat>, op: OpId, intent: Intent, current: map<Ref, Oid>, i: nat)
    requires i < |intent| - 1 && intent[i].to != 0 && intent[i].runOnPush && intent[i].ref != intent[|intent| - 1].ref
    requires WaitingRecorded(q, queued, QueuedAfter(q, queued, op, intent[..|intent| - 1], current), intent[..|intent| - 1], current)
    requires RunsRecorded(q, QueueRuns(q, op, intent[..|intent| - 1]), op, intent[..|intent| - 1])
    ensures NumberOf(q.counter, intent, i) in QueuedAfter(q, queued, op, intent, current) <==> intent[i].queues
  {
    var front, n := intent[..|intent| - 1], NumberOf(q.counter, intent, i);
    assert front[i] == intent[i];
    NumberOfFront(q.counter, intent, i);
    assert QueueRuns(q, op, front).rows[n].ref == intent[i].ref;
  }

  lemma WaitingLast(q: Queue, queued: set<nat>, op: OpId, intent: Intent, current: map<Ref, Oid>)
    requires intent != [] && intent[|intent| - 1].to != 0 && intent[|intent| - 1].runOnPush
    requires (forall k :: k in q.rows ==> k <= q.counter)
    requires WaitingRecorded(q, queued, QueuedAfter(q, queued, op, intent[..|intent| - 1], current), intent[..|intent| - 1], current)
    requires RunsRecorded(q, QueueRuns(q, op, intent[..|intent| - 1]), op, intent[..|intent| - 1])
    ensures NumberOf(q.counter, intent, |intent| - 1) in QueuedAfter(q, queued, op, intent, current) <==> intent[|intent| - 1].queues
  {
    assert intent[..|intent| - 1 + 1] == intent;
  }

  lemma WaitingNew(q: Queue, queued: set<nat>, op: OpId, intent: Intent, current: map<Ref, Oid>)
    requires intent != [] && (forall k :: k in q.rows ==> k <= q.counter)
    requires WaitingRecorded(q, queued, QueuedAfter(q, queued, op, intent[..|intent| - 1], current), intent[..|intent| - 1], current)
    requires RunsRecorded(q, QueueRuns(q, op, intent[..|intent| - 1]), op, intent[..|intent| - 1])
    requires forall r :: r in intent[..|intent| - 1] ==> r.ref != intent[|intent| - 1].ref
    ensures forall i :: 0 <= i < |intent| && intent[i].to != 0 && intent[i].runOnPush ==>
              (NumberOf(q.counter, intent, i) in QueuedAfter(q, queued, op, intent, current) <==> intent[i].queues)
  {
    forall i | 0 <= i < |intent| && intent[i].to != 0 && intent[i].runOnPush
      ensures NumberOf(q.counter, intent, i) in QueuedAfter(q, queued, op, intent, current) <==> intent[i].queues
    {
      if i < |intent| - 1 {
        assert intent[..|intent| - 1][i] == intent[i];
        WaitingEarlier(q, queued, op, intent, current, i);
      } else {
        WaitingLast(q, queued, op, intent, current);
      }
    }
  }

  /** The recording transaction: the push row, the index, the runs, the waiting runs and the
      completion of the operation; every other row stays. */
  ghost predicate PushRecorded(db: Db, after: Db, op: OpId, intent: Intent, peel: Oid -> Oid, refs: map<Ref, Oid>) {
    && RowsRecorded(db, after, op, intent) && IndexRead(after, peel, refs)
    && RunsRecorded(Queue(db.runs, db.counter), Queue(after.runs, after.counter), op, intent)
    && WaitingRecorded(Queue(db.runs, db.counter), db.queued, after.queued, intent, after.index)
  }

  ghost predicate RowsRecorded(db: Db, after: Db, op: OpId, intent: Intent) {
    && after.pushes.Keys == db.pushes.Keys + {op} && after.pushes[op] == intent
    && (forall o :: o in db.pushes && o != op ==> after.pushes[o] == db.pushes[o])
    && OutcomeSet(db.ops, after.ops, op, Recorded) && after.deployments == db.deployments
  }

  ghost predicate IndexRead(after: Db, peel: Oid -> Oid, refs: map<Ref, Oid>) {
    after.index.Keys == refs.Keys && forall r :: r in refs ==> after.index[r] == peel(refs[r])
  }

  /** The operation has the outcome; its intent and every other operation stay. */
  ghost predicate OutcomeSet(ops: map<OpId, Operation>, after: map<OpId, Operation>, op: OpId, outcome: Outcome) {
    && op in ops && ops[op].outcome.Pending? && after.Keys == ops.Keys
    && after[op].intent == ops[op].intent && after[op].outcome == outcome
    && (forall o :: o in ops && o != op ==> after[o] == ops[o])
  }

  lemma RecordedRowsMean(db: Db, op: OpId, peel: Oid -> Oid, refs: map<Ref, Oid>)
    requires IsPending(db.ops, op)
    ensures RowsRecorded(db, RecordPush(db, op, IndexOf(peel, refs)), op, db.ops[op].intent)
    ensures IndexRead(RecordPush(db, op, IndexOf(peel, refs)), peel, refs)
  {
  }

  lemma RecordMeans(db: Db, op: OpId, peel: Oid -> Oid, refs: map<Ref, Oid>)
    requires IsPending(db.ops, op) && DistinctRefs(ChangesOf(db.ops[op].intent))
    requires Waiting(db.runs, db.queued) && forall k :: k in db.runs ==> k <= db.counter
    ensures PushRecorded(db, RecordPush(db, op, IndexOf(peel, refs)), op, db.ops[op].intent, peel, refs)
  {
    RecordedRowsMean(db, op, peel, refs);
    QueueRunsMeans(Queue(db.runs, db.counter), op, db.ops[op].intent);
    QueuedAfterMeans(Queue(db.runs, db.counter), db.queued, op, db.ops[op].intent, IndexOf(peel, refs));
  }

  // ----- manual runs and outcomes -----

  /** A manual run under the next number; it supersedes the ref's waiting runs. */
  ghost predicate ManualAdded(db: Db, after: Db, ref: Ref, commit: Oid, queues: bool) {
    && after.counter == db.counter + 1
    && after.runs.Keys == db.runs.Keys + {after.counter} && after.runs[after.counter] == Run(None, ref, commit)
    && (forall k :: k in db.runs ==> after.runs[k] == db.runs[k])
    && (forall k :: k in db.runs ==> (k in after.queued <==> k in db.queued && db.runs[k].ref != ref))
    && (after.counter in after.queued <==> queues) && after.queued <= after.runs.Keys
    && after.ops == db.ops && after.index == db.index && after.pushes == db.pushes && after.deployments == db.deployments
  }

  lemma ManualMeans(db: Db, ref: Ref, commit: Oid, queues: bool)
    requires Waiting(db.runs, db.queued) && forall k :: k in db.runs ==> k <= db.counter
    ensures ManualAdded(db, CreateManual(db, ref, commit, queues), ref, commit, queues)
  {
  }

  ghost predicate OnlyOutcome(db: Db, after: Db, op: OpId, outcome: Outcome) {
    && OutcomeSet(db.ops, after.ops, op, outcome)
    && after.index == db.index && after.pushes == db.pushes && after.deployments == db.deployments
    && after.runs == db.runs && after.counter == db.counter && after.queued == db.queued
  }

  lemma FinishMeans(db: Db, op: OpId, outcome: Outcome)
    requires IsPending(db.ops, op)
    ensures OnlyOutcome(db, Finish(db, op, outcome), op, outcome)
  {
  }

  // ----- all steps -----

  ghost predicate SameRuns(db: Db, after: Db) {
    after.runs == db.runs && after.counter == db.counter && after.queued == db.queued
  }

  /** The intent is a new unfinished operation; nothing else changes. */
  ghost predicate OperationBegun(db: Db, after: Db, op: OpId, intent: Intent) {
    && op !in db.ops && after.ops.Keys == db.ops.Keys + {op} && after.ops[op] == Operation(intent, Pending(false))
    && (forall o :: o in db.ops ==> after.ops[o] == db.ops[o] && !db.ops[o].outcome.Pending?)
    && after.index == db.index && after.pushes == db.pushes && after.deployments == db.deployments && SameRuns(db, after)
  }

  ghost predicate Pinned(git: Git, after: Git, commit: Oid) {
    && after.refs == git.refs && after.receipts == git.receipts
    && (forall h :: h in after.pins <==> h in git.pins || h == commit)
  }

  /** The deployment of a run names its commit. */
  ghost predicate Deployed(db: Db, after: Db, id: nat, run: nat) {
    && run in db.runs && id !in db.deployments
    && after.deployments.Keys == db.deployments.Keys + {id} && after.deployments[id] == db.runs[run].commit
    && (forall d :: d in db.deployments ==> after.deployments[d] == db.deployments[d])
    && after.ops == db.ops && after.index == db.index && after.pushes == db.pushes && SameRuns(db, after)
  }

  /** Rows that others remove or rewrite: exactly the one the step names. */
  ghost predicate Housekept(db: Db, after: Db, step: Step) {
    && after.counter == db.counter && after.index == db.index
    && (if step.LeaveQueue? then (forall k :: k in after.queued <==> k in db.queued && k != step.run) else after.queued == db.queued)
    && (forall k :: k in after.runs <==> k in db.runs && step != ForgetRun(k)) && (forall k :: k in after.runs ==> after.runs[k] == db.runs[k])
    && (forall d :: d in after.deployments <==> d in db.deployments && step != ForgetDeployment(d))
    && (forall d :: d in after.deployments ==> after.deployments[d] == db.deployments[d])
    && (forall o :: o in after.pushes <==> o in db.pushes && step != ForgetPush(o)) && (forall o :: o in after.pushes ==> after.pushes[o] == db.pushes[o])
    && (forall o :: o in after.ops <==> o in db.ops && step != ForgetOperation(o)) && (forall o :: o in after.ops ==> after.ops[o] == db.ops[o])
  }

  /** Refs move behind the protocol's back. */
  ghost predicate RefsReplaced(git: Git, after: Git, refs: map<Ref, Oid>) {
    after.refs == refs && after.pins == git.pins && after.receipts == git.receipts
  }

  ghost predicate SyncMeans(s: State, step: Step, t: State) {
    && t.git == s.git && t.lock == s.lock
    && (step.SyncRead? ==> t.db == s.db && t.reader.Some? && ReaderRead(t.reader.value, s.peel, s.git.refs))
    && (step.SyncTx? ==> s.reader.Some? && t.reader.None? && t.db == s.db.(index := s.reader.value))
    && (step.SyncDrop? ==> t.reader.None? && t.db == s.db)
  }

  ghost predicate ReaderRead(read: map<Ref, Oid>, peel: Oid -> Oid, refs: map<Ref, Oid>) {
    read.Keys == refs.Keys && forall r :: r in refs ==> read[r] == peel(refs[r])
  }

  ghost predicate Forgets(step: Step) {
    step.LeaveQueue? || step.ForgetRun? || step.ForgetDeployment? || step.ForgetPush? || step.ForgetOperation?
  }

  ghost predicate Syncs(step: Step) {
    step.SyncRead? || step.SyncTx? || step.SyncDrop?
  }

  /** Steps that write Git leave the rows alone, and the other way round. */
  ghost predicate GitMeans(s: State, step: Step, t: State) {
    && t.db == s.db && t.reader == s.reader && s.lock.Some?
    && (step.ApplyTakes? ==>
          s.lock.value.Clear? && s.lock.value.op in s.db.ops && GitMoved(s.git, t.git, s.lock.value.op, s.db.ops[s.lock.value.op].intent))
    && (step.PinTx? ==> s.lock.value.Admitted? && s.lock.value.job.StartJob? && Pinned(s.git, t.git, s.lock.value.job.commit))
    && (step.ReconcileTx? ==>
          && s.lock.value.ListedAll? && t.git.refs == s.git.refs
          && (forall h :: h in t.git.pins <==> h != 0 && h in s.lock.value.objects)
          && (forall o :: o in t.git.receipts <==> o in s.git.receipts && o in s.lock.value.operations)
          && (forall o :: o in t.git.receipts ==> t.git.receipts[o] == s.git.receipts[o]))
  }

  ghost predicate RowMeans(s: State, step: Step, t: State) {
    && t.git == s.git && t.reader == s.reader
    && (step.NoteError? ==> OnlyOutcome(s.db, t.db, step.op, Pending(true)))
    && (step.Begin? ==> s.lock.Some? && s.lock.value.Checked? && OperationBegun(s.db, t.db, step.op, s.lock.value.intent))
    && (step.RecordTx? ==>
          && s.lock.Some? && s.lock.value.Applied? && s.lock.value.op in s.db.ops
          && PushRecorded(s.db, t.db, s.lock.value.op, s.db.ops[s.lock.value.op].intent, s.peel, s.git.refs))
    && (step.RejectTx? ==> s.lock.Some? && s.lock.value.Moved? && OnlyOutcome(s.db, t.db, s.lock.value.op, Rejected))
    && (step.AbandonTx? ==> s.lock.Some? && s.lock.value.Hopeless? && OnlyOutcome(s.db, t.db, s.lock.value.op, Abandoned))
    && (step.StartTx? ==>
          s.lock.Some? && s.lock.value.Pinned? && ManualAdded(s.db, t.db, s.lock.value.ref, s.lock.value.commit, step.queues))
    && (step.Deploy? ==> Deployed(s.db, t.db, step.id, step.run))
    && (Forgets(step) ==> Housekept(s.db, t.db, step))
  }

  ghost predicate ListingMeans(s: State, step: Step, t: State) {
    && (step.ListObjects? ==> t.lock.Some? && t.lock.value.Listed? && forall h :: h in t.lock.value.objects <==> RowNames(s.db, h))
    && (step.ListOperations? ==>
          s.lock.Some? && s.lock.value.Listed? && t.lock == Some(ListedAll(s.lock.value.objects, s.db.ops.Keys)))
  }

  ghost predicate Means(s: State, step: Step, t: State) {
    if Looks(step) then t.git == s.git && t.db == s.db && t.reader == s.reader && ListingMeans(s, step, t)
    else if step.ApplyTakes? || step.PinTx? || step.ReconcileTx? then GitMeans(s, step, t)
    else if Syncs(step) then SyncMeans(s, step, t)
    else if step.Outsider? then t.db == s.db && t.lock == s.lock && t.reader == s.reader && RefsReplaced(s.git, t.git, step.refs)
    else RowMeans(s, step, t)
  }

  lemma LooksMean(s: State, step: Step)
    requires Enabled(s, step) && Looks(step)
    ensures Means(s, step, Effect(s, step))
  {
    LooksKeep(s, step);
    if step.ListObjects? {
      forall h ensures h in Retained(s.db) <==> RowNames(s.db, h) {
        RetainedMeans(s.db, h);
      }
    }
  }

  lemma GitMean(s: State, step: Step)
    requires Enabled(s, step) && (step.ApplyTakes? || step.PinTx? || step.ReconcileTx?)
    ensures GitMeans(s, step, Effect(s, step))
  {
    if step.ApplyTakes? {
      ApplyMeans(s.git, s.lock.value.op, s.db.ops[s.lock.value.op].intent);
    }
  }

  lemma RunsForgotten(s: State, step: Step)
    requires Enabled(s, step) && (step.LeaveQueue? || step.ForgetRun? || step.ForgetDeployment?)
    ensures Housekept(s.db, Effect(s, step).db, step) && Effect(s, step).git == s.git && Effect(s, step).reader == s.reader
  {
  }

  lemma PushesForgotten(s: State, step: Step)
    requires Enabled(s, step) && (step.ForgetPush? || step.ForgetOperation?)
    ensures Housekept(s.db, Effect(s, step).db, step) && Effect(s, step).git == s.git && Effect(s, step).reader == s.reader
  {
  }

  lemma ForgetsMean(s: State, step: Step)
    requires Enabled(s, step) && Forgets(step)
    ensures RowMeans(s, step, Effect(s, step))
  {
    if step.ForgetPush? || step.ForgetOperation? {
      PushesForgotten(s, step);
    } else {
      RunsForgotten(s, step);
    }
  }

  /** The numbers of the runs are in use, and the waiting ones exist. */
  ghost predicate Countable(db: Db) {
    Waiting(db.runs, db.queued) && forall k :: k in db.runs ==> k <= db.counter
  }

  lemma BegunOrRecordedMeans(s: State, step: Step)
    requires Enabled(s, step) && (step.Begin? || step.RecordTx?) && Countable(s.db)
    requires step.RecordTx? ==> DistinctRefs(ChangesOf(s.db.ops[s.lock.value.op].intent))
    requires step.Begin? ==> step.op !in s.db.ops
    ensures RowMeans(s, step, Effect(s, step))
  {
    if step.RecordTx? {
      RecordMeans(s.db, s.lock.value.op, s.peel, s.git.refs);
    } else {
      BeginMeans(s, step.op);
    }
  }

  lemma NoteMeans(s: State, step: Step)
    requires Enabled(s, step) && step.NoteError?
    ensures RowMeans(s, step, Effect(s, step))
  {
    FinishMeans(s.db, step.op, Pending(true));
  }

  lemma RefusalMeans(s: State, step: Step)
    requires Enabled(s, step) && (step.RejectTx? || step.AbandonTx?)
    ensures RowMeans(s, step, Effect(s, step))
  {
    FinishMeans(s.db, s.lock.value.op, if step.RejectTx? then Rejected else Abandoned);
  }

  lemma BeginMeans(s: State, op: OpId)
    requires CanBegin(s, op) && op !in s.db.ops
    ensures OperationBegun(s.db, DoBegin(s, op).db, op, s.lock.value.intent)
  {
    forall o | o in s.db.ops ensures !s.db.ops[o].outcome.Pending? {
      assert !IsPending(s.db.ops, o);
    }
  }

  lemma SyncsMean(s: State, step: Step)
    requires Enabled(s, step) && Syncs(step)
    ensures SyncMeans(s, step, Effect(s, step))
  {
  }

  lemma RunMeans(s: State, step: Step)
    requires Enabled(s, step) && Countable(s.db) && (step.StartTx? || step.Deploy?)
    ensures RowMeans(s, step, Effect(s, step))
  {
    if step.StartTx? {
      ManualMeans(s.db, s.lock.value.ref, s.lock.value.commit, step.queues);
    }
  }

  lemma KnownInMeans(s: State, step: Step)
    requires Inv(s) && Enabled(s, step)
    ensures Countable(s.db)
    ensures step.RecordTx? ==> DistinctRefs(ChangesOf(s.db.ops[s.lock.value.op].intent))
    ensures step.Begin? ==> step.op !in s.db.ops
  {
  }

  lemma RowStepMeans(s: State, step: Step)
    requires Enabled(s, step) && Countable(s.db)
    requires step.RecordTx? ==> DistinctRefs(ChangesOf(s.db.ops[s.lock.value.op].intent))
    requires step.Begin? ==> step.op !in s.db.ops
    requires step.Begin? || step.RecordTx? || step.NoteError? || step.RejectTx? || step.AbandonTx? || step.StartTx? || step.Deploy?
    ensures RowMeans(s, step, Effect(s, step))
  {
    if step.Begin? || step.RecordTx? {
      BegunOrRecordedMeans(s, step);
    } else if step.NoteError? {
      NoteMeans(s, step);
    } else if step.RejectTx? || step.AbandonTx? {
      RefusalMeans(s, step);
    } else {
      RunMeans(s, step);
    }
  }

  lemma InvMeans(s: State, step: Step)
    requires Inv(s) && Enabled(s, step)
    ensures Means(s, step, Effect(s, step))
  {
    KnownInMeans(s, step);
    if Looks(step) {
      LooksMean(s, step);
    } else if step.ApplyTakes? || step.PinTx? || step.ReconcileTx? {
      GitMean(s, step);
    } else if Forgets(step) {
      ForgetsMean(s, step);
    } else if Syncs(step) {
      SyncsMean(s, step);
    } else if !step.Outsider? {
      RowStepMeans(s, step);
    }
  }

  /** In every run each step does to Git and to every row exactly what `Means` says. */
  lemma EffectMeans(s: State, steps: seq<Step>, step: Step)
    requires Initial(s) && Possible(s, steps) && Enabled(After(s, steps), step)
    ensures Means(After(s, steps), step, Effect(After(s, steps), step))
  {
    Reaches(s, steps);
    InvMeans(After(s, steps), step);
  }

  // ----- the push row -----

  /** A recorded operation has its push row. */
  ghost predicate HasPush(s: State, op: OpId) {
    op in s.past.recorded ==> op in s.past.intents && op in s.db.pushes && s.db.pushes[op] == s.past.intents[op]
  }

  /** Only recording adds push rows, and only forgetting one removes it. */
  lemma OtherStepsKeepPushes(s: State, step: Step, op: OpId)
    requires Enabled(s, step) && !step.RecordTx? && !Looks(step)
    ensures Effect(s, step).past.recorded == s.past.recorded
    ensures step != ForgetPush(op) && op in s.db.pushes ==> op in Effect(s, step).db.pushes && Effect(s, step).db.pushes[op] == s.db.pushes[op]
  {
  }

  lemma LooksKeepPast(s: State, step: Step)
    requires Enabled(s, step) && Looks(step)
    ensures Effect(s, step).past == s.past && Effect(s, step).db == s.db
  {
  }

  lemma IntentsStay(s: State, step: Step, op: OpId)
    requires Enabled(s, step) && op in s.past.intents && !Looks(step)
    ensures op in Effect(s, step).past.intents && Effect(s, step).past.intents[op] == s.past.intents[op]
  {
  }

  lemma PushStep(s: State, step: Step, op: OpId)
    requires Enabled(s, step) && HasPush(s, op) && step != ForgetPush(op) && Journal(s.db.ops, s.db.pushes, s.past)
    ensures HasPush(Effect(s, step), op)
  {
    if Looks(step) {
      LooksKeepPast(s, step);
    } else if step.RecordTx? {
      RecordedStep(s, op);
    } else {
      OtherStepsKeepPushes(s, step, op);
      if op in s.past.recorded {
        IntentsStay(s, step, op);
      }
    }
  }

  lemma RecordedStep(s: State, op: OpId)
    requires CanRecord(s) && HasPush(s, op) && Journal(s.db.ops, s.db.pushes, s.past)
    ensures HasPush(DoRecord(s), op)
  {
    if op == s.lock.value.op {
      RecordedHasPush(s);
    }
  }

  lemma {:induction false} PushStays(s: State, steps: seq<Step>, op: OpId)
    requires Inv(s) && Possible(s, steps) && HasPush(s, op)
    requires forall i :: 0 <= i < |steps| ==> steps[i] != ForgetPush(op)
    ensures HasPush(After(s, steps), op)
    decreases |steps|
  {
    if steps != [] {
      PushStep(s, steps[0], op);
      Keeps(s, steps[0]);
      PushStays(Effect(s, steps[0]), steps[1..], op);
    }
  }

  /** In every run, an operation that has been recorded has its push row, with its intent,
      until somebody forgets that row. */
  lemma RecordedPushHasRow(s: State, steps: seq<Step>, later: seq<Step>)
    requires Initial(s) && Possible(s, steps) && CanRecord(After(s, steps)) && Possible(DoRecord(After(s, steps)), later)
    requires forall i :: 0 <= i < |later| ==> later[i] != ForgetPush(After(s, steps).lock.value.op)
    ensures var t := After(s, steps);
            var op, u := t.lock.value.op, After(DoRecord(t), later);
            op in u.db.pushes && u.db.pushes[op] == t.db.ops[op].intent
  {
    Reaches(s, steps);
    var t := After(s, steps);
    KeepsRecord(t);
    RecordedHasPush(t);
    PushStays(DoRecord(t), later, t.lock.value.op);
    RecordedIntent(DoRecord(t), later, t.lock.value.op);
  }

  lemma RecordedHasPush(t: State)
    requires Journal(t.db.ops, t.db.pushes, t.past) && CanRecord(t)
    ensures var op := t.lock.value.op;
            && HasPush(DoRecord(t), op) && op in DoRecord(t).past.recorded
            && op in t.past.intents && DoRecord(t).past.intents[op] == t.db.ops[op].intent
  {
  }

  lemma IntentStays(s: State, step: Step, op: OpId)
    requires Enabled(s, step) && op in s.past.intents && op in s.past.recorded
    ensures var t := Effect(s, step);
            op in t.past.intents && t.past.intents[op] == s.past.intents[op] && op in t.past.recorded
  {
    if Looks(step) {
      LooksKeepPast(s, step);
    } else {
      IntentsStay(s, step, op);
      if !step.RecordTx? {
        OtherStepsKeepPushes(s, step, op);
      }
    }
  }

  lemma {:induction false} RecordedIntent(s: State, steps: seq<Step>, op: OpId)
    requires Possible(s, steps) && op in s.past.intents && op in s.past.recorded
    ensures var t := After(s, steps);
            op in t.past.intents && t.past.intents[op] == s.past.intents[op] && op in t.past.recorded
    decreases |steps|
  {
    if steps != [] {
      IntentStays(s, steps[0], op);
      RecordedIntent(Effect(s, steps[0]), steps[1..], op);
    }
  }
}
