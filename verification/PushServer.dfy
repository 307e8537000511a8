/** The push code itself, statement by statement, over one repository's Git refs and
    database rows, proved to take only steps of the protocol. */
module PushServer {
  import opened Options
  import opened PushProtocol
  import opened PushSafety
  import opened PushEffects

  /** What becomes of a database transaction: it commits, it does not, or it commits and the
      reply is lost, which its caller takes for a failure. */
  datatype Reply = Fine | Refused | Lost

  /** What the outside world does to one call: whether what it reads from Git before its Git
      command can be read, whether Git carries the command out and whether its reply arrives,
      where somebody else puts the refs if it does not, whether what the call reads afterwards
      can be read, whether the pusher's account can be read, and what becomes of the intent's
      insert, of the closing transaction and of a failure's note. */
  datatype Weather = Weather(looks: bool, gitWorks: bool, replyLost: bool, outsider: Option<map<Ref, Oid>>, looksAgain: bool,
                             personFound: bool, insert: Reply, close: Reply, noteWorks: bool)

  predicate Sane(w: Weather) {
    w.outsider.Some? ==> forall r :: r in w.outsider.value ==> w.outsider.value[r] != 0
  }

  datatype Attempt = Completed | NotApplied | Failed

  ghost function Elements<T>(s: seq<T>): set<T> {
    set x | x in s
  }

  /** CheckRefChanges: every ref is still where the change expects it. */
  method CheckRefChanges(refs: map<Ref, Oid>, changes: seq<Change>) returns (fits: bool)
    ensures fits <==> ChangesFit(refs, changes)
    ensures fits <==> forall i :: 0 <= i < |changes| ==>
      if changes[i].ref in refs then refs[changes[i].ref] == changes[i].from else changes[i].from == 0
  {
    var i := 0;
    while i < |changes|
      invariant 0 <= i <= |changes|
      invariant forall k :: 0 <= k < i ==> ChangeFits(refs, changes[k])
    {
      var c := changes[i];
      if c.ref !in refs && c.from == 0 {
        i := i + 1;
        continue;
      }
      if c.ref !in refs || refs[c.ref] != c.from {
        return false;
      }
      i := i + 1;
    }
    return true;
  }

  /** The update-ref transaction ApplyOperation feeds to Git: all of it or nothing. */
  method RefTransaction(git: Git, op: OpId, changes: seq<Change>, commits: seq<Oid>, payload: Intent)
    returns (accepted: bool, after: Git)
    ensures accepted <==>
      DistinctRefs(changes) && NoneEmpty(changes) && ChangesFit(git.refs, changes) && 0 !in commits && op !in git.receipts
    ensures accepted ==>
      after == Git(MoveAll(git.refs, changes), git.pins + Elements(commits), git.receipts[op := payload])
    ensures !accepted ==> after == git
  {
    after := git;
    var refs := git.refs;
    var named: set<Ref> := {};
    var i := 0;
    while i < |changes|
      invariant 0 <= i <= |changes|
      invariant named == set k | 0 <= k < i :: changes[k].ref
      invariant DistinctRefs(changes[..i]) && NoneEmpty(changes[..i]) && ChangesFit(git.refs, changes[..i])
      invariant refs == MoveAll(git.refs, changes[..i])
    {
      var c := changes[i];
      if c.ref in named || (c.from == 0 && c.to == 0) || !ChangeFits(git.refs, c) {
        assert !DistinctRefs(changes) || !NoneEmpty(changes) || !ChangesFit(git.refs, changes);
        return false, git;
      }
      assert changes[..i + 1] == changes[..i] + [c];
      refs := Move(refs, c);
      named := named + {c.ref};
      i := i + 1;
    }
    assert changes[..|changes|] == changes;
    var seen: set<Oid> := {};
    i := 0;
    while i < |commits|
      invariant 0 <= i <= |commits|
      invariant seen == Elements(commits[..i]) && 0 !in commits[..i]
    {
      if commits[i] == 0 {
        return false, git;
      }
      assert commits[..i + 1] == commits[..i] + [commits[i]];
      seen := seen + {commits[i]};
      i := i + 1;
    }
    assert commits[..|commits|] == commits;
    if op in git.receipts {
      return false, git;
    }
    return true, Git(refs, git.pins + seen, git.receipts[op := payload]);
  }

  /** ReconcilePins: pins exactly the wanted objects and drops other operations' receipts. */
  method ReconcilePins(git: Git, objects: seq<Oid>, operations: seq<OpId>) returns (after: Git)
    ensures after == GitReconcile(git, Elements(objects), Elements(operations))
    ensures after.refs == git.refs && forall h :: h in after.pins <==> h != 0 && h in objects
    ensures forall op :: op in after.receipts <==> op in git.receipts && op in operations
    ensures forall op :: op in after.receipts ==> after.receipts[op] == git.receipts[op]
  {
    var wanted: set<Oid> := {};
    var i := 0;
    while i < |objects|
      invariant 0 <= i <= |objects|
      invariant wanted == NonZero(Elements(objects[..i]))
    {
      assert objects[..i + 1] == objects[..i] + [objects[i]];
      if objects[i] != 0 {
        wanted := wanted + {objects[i]};
      }
      i := i + 1;
    }
    assert objects[..|objects|] == objects;
    var kept: set<OpId> := {};
    i := 0;
    while i < |operations|
      invariant 0 <= i <= |operations|
      invariant kept == Elements(operations[..i])
    {
      assert operations[..i + 1] == operations[..i] + [operations[i]];
      kept := kept + {operations[i]};
      i := i + 1;
    }
    assert operations[..|operations|] == operations;
    var receipts := git.receipts;
    var pins := wanted;
    var todo := git.receipts.Keys;
    while todo != {}
      invariant todo <= git.receipts.Keys
      invariant receipts == map op | op in git.receipts && (op in kept || op in todo) :: git.receipts[op]
    {
      var op :| op in todo;
      if op !in kept {
        receipts := receipts - {op};
      }
      todo := todo - {op};
    }
    after := Git(git.refs, pins, receipts);
  }

  /** syncRefsRows: removes rows of refs that are gone, then upserts the rest. */
  method SyncRefsRows(index: map<Ref, Oid>, current: map<Ref, Oid>) returns (rows: map<Ref, Oid>)
    ensures rows == current
  {
    rows := map r | r in index && r in current :: index[r];
    var todo := current.Keys;
    while todo != {}
      invariant todo <= current.Keys
      invariant rows.Keys <= current.Keys
      invariant forall r :: r in current && r !in todo ==> r in rows && rows[r] == current[r]
    {
      var r :| r in todo;
      if r !in rows || rows[r] != current[r] {
        rows := rows[r := current[r]];
      }
      todo := todo - {r};
    }
  }

  /** The changes and retained objects recoverPush collects from an intent. */
  method Collect(intent: Intent) returns (changes: seq<Change>, commits: seq<Oid>)
    ensures changes == ChangesOf(intent)
    ensures Elements(commits) == Named(intent) && 0 !in commits
  {
    changes, commits := [], [];
    var i := 0;
    while i < |intent|
      invariant 0 <= i <= |intent|
      invariant changes == ChangesOf(intent[..i])
      invariant Elements(commits) == Named(intent[..i]) && 0 !in commits
    {
      var rec := intent[i];
      changes := changes + [Change(rec.ref, rec.from, rec.to)];
      var own := ObjectsOf(rec);
      assert Elements(commits + own) == Elements(commits) + Elements(own);
      commits := commits + own;
      assert intent[..i + 1] == intent[..i] + [rec];
      NamedGrows(intent[..i], rec);
      i := i + 1;
    }
    assert intent[..|intent|] == intent;
  }

  method ObjectsOf(rec: Record) returns (own: seq<Oid>)
    ensures Elements(own) == Named([rec]) && 0 !in own
  {
    own := [];
    if rec.commit != 0 {
      own := own + [rec.commit];
    }
    if rec.from != 0 {
      own := own + [rec.from];
    }
    if rec.to != 0 {
      own := own + [rec.to];
    }
  }

  lemma NamedGrows(intent: Intent, rec: Record)
    ensures Named(intent + [rec]) == Named(intent) + Named([rec])
  {
    assert forall r :: r in intent + [rec] <==> r in intent || r in [rec];
  }

  // ----- protocol steps -----

  /** Steps a process takes while it holds the mutation lock, the note it leaves, and an
      outsider's interference. */
  predicate Own(step: Step) {
    !(step.Deploy? || step.ForgetRun? || step.ForgetDeployment? || step.ForgetPush? || step.ForgetOperation? || step.SyncRead?
      || step.SyncTx? || step.SyncDrop? || step.LeaveQueue?)
  }

  ghost predicate By(from: State, steps: seq<Step>, to: State) {
    Possible(from, steps) && After(from, steps) == to && forall i :: 0 <= i < |steps| ==> Own(steps[i])
  }

  /** Own protocol steps lead from one state to the other. */
  ghost predicate Leads(from: State, to: State) {
    exists steps: seq<Step> :: By(from, steps, to)
  }

  /** Protocol steps of anybody lead here from a first state. */
  ghost predicate Reachable(s: State) {
    exists start: State, steps: seq<Step> :: Initial(start) && Possible(start, steps) && After(start, steps) == s
  }

  lemma {:induction false} AfterThen(s: State, steps: seq<Step>, more: seq<Step>)
    requires Possible(s, steps) && Possible(After(s, steps), more)
    ensures Possible(s, steps + more) && After(s, steps + more) == After(After(s, steps), more)
    decreases |steps|
  {
    if steps != [] {
      AfterThen(Effect(s, steps[0]), steps[1..], more);
      assert (steps + more)[1..] == steps[1..] + more;
    } else {
      assert steps + more == more;
    }
  }

  lemma LeadsNowhere(s: State)
    ensures Leads(s, s)
  {
    assert By(s, [], s);
  }

  lemma LeadsThen(a: State, b: State, c: State)
    requires Leads(a, b) && Leads(b, c)
    ensures Leads(a, c)
  {
    var steps :| By(a, steps, b);
    var more :| By(b, more, c);
    AfterThen(a, steps, more);
    assert By(a, steps + more, c);
  }

  lemma ReachesThen(a: State, b: State)
    requires Reachable(a) && Leads(a, b)
    ensures Reachable(b)
  {
    var start, steps :| Initial(start) && Possible(start, steps) && After(start, steps) == a;
    var more :| By(a, more, b);
    AfterThen(start, steps, more);
  }

  /** One own step. */
  lemma Went(before: State, step: Step, after: State)
    requires Reachable(before) && Enabled(before, step) && Own(step) && after == Effect(before, step)
    ensures Reachable(after) && Leads(before, after)
  {
    assert [step][1..] == [];
    assert Possible(after, []) && After(after, []) == after;
    assert By(before, [step], after);
    ReachesThen(before, after);
  }

  /** History is only added to. */
  ghost predicate Grown(before: History, after: History) {
    && before.applied <= after.applied && before.recorded <= after.recorded && before.refused <= after.refused
    && (forall op :: op in before.intents ==> op in after.intents && after.intents[op] == before.intents[op])
    && (forall k :: k in before.rows ==> k in after.rows)
  }

  lemma StepGrows(s: State, step: Step)
    requires Enabled(s, step)
    ensures Grown(s.past, Effect(s, step).past)
  {
    if step.Begin? || step.ApplyTakes? || step.RecordTx? || step.RejectTx? || step.AbandonTx? || step.StartTx? || step.Outsider? {
      WriterGrows(s, step);
    } else {
      ReaderKeeps(s, step);
    }
  }

  lemma WriterGrows(s: State, step: Step)
    requires Enabled(s, step)
    requires step.Begin? || step.ApplyTakes? || step.RecordTx? || step.RejectTx? || step.AbandonTx? || step.StartTx? || step.Outsider?
    ensures Grown(s.past, Effect(s, step).past)
  {
  }

  lemma ReaderKeeps(s: State, step: Step)
    requires Enabled(s, step)
    requires !step.Begin? && !step.ApplyTakes? && !step.RecordTx? && !step.RejectTx? && !step.AbandonTx? && !step.StartTx?
             && !step.Outsider?
    ensures Effect(s, step).past == s.past
  {
  }

  lemma GrownThen(a: History, b: History, c: History)
    requires Grown(a, b) && Grown(b, c)
    ensures Grown(a, c)
  {
  }

  lemma {:induction false} PathGrows(s: State, steps: seq<Step>)
    requires Possible(s, steps)
    ensures Grown(s.past, After(s, steps).past)
    decreases |steps|
  {
    if steps != [] {
      var next := Effect(s, steps[0]);
      StepGrows(s, steps[0]);
      PathGrows(next, steps[1..]);
      GrownThen(s.past, next.past, After(s, steps).past);
    }
  }

  /** Protocol steps only add to the history. */
  lemma LeadsGrows(a: State, b: State)
    requires Leads(a, b)
    ensures Grown(a.past, b.past)
  {
    var steps :| By(a, steps, b);
    PathGrows(a, steps);
  }

  lemma RecordingMeans(t: State)
    requires Reachable(t) && CanRecord(t)
    ensures var op := t.lock.value.op;
            PushRecorded(t.db, PushProtocol.RecordPush(t.db, op, IndexOf(t.peel, t.git.refs)), op, t.db.ops[op].intent, t.peel, t.git.refs)
  {
    var start, steps :| Initial(start) && Possible(start, steps) && After(start, steps) == t;
    Reaches(start, steps);
    KnownInMeans(t, RecordTx);
    RecordMeans(t.db, t.lock.value.op, t.peel, t.git.refs);
  }

  lemma BeginningMeans(t: State, op: OpId)
    requires Reachable(t) && CanBegin(t, op)
    ensures OperationBegun(t.db, DoBegin(t, op).db, op, t.lock.value.intent)
  {
    var start, steps :| Initial(start) && Possible(start, steps) && After(start, steps) == t;
    Reaches(start, steps);
    KnownInMeans(t, Begin(op));
    BeginMeans(t, op);
  }

  lemma CreatingMeans(t: State, ref: Ref, commit: Oid, queues: bool)
    requires Reachable(t)
    ensures ManualAdded(t.db, PushProtocol.CreateManual(t.db, ref, commit, queues), ref, commit, queues)
  {
    var start, steps :| Initial(start) && Possible(start, steps) && After(start, steps) == t;
    Reaches(start, steps);
    CountedIn(t);
    ManualMeans(t.db, ref, commit, queues);
  }

  lemma CountedIn(t: State)
    requires Inv(t)
    ensures Countable(t.db)
  {
  }

  lemma ListedRows(db: Db, objects: seq<Oid>, operations: seq<OpId>)
    requires (forall h :: h in objects <==> RowNames(db, h)) && (forall o :: o in operations <==> o in db.ops)
    ensures Elements(objects) == Retained(db) && Elements(operations) == db.ops.Keys
  {
    forall h ensures h in Retained(db) <==> RowNames(db, h) {
      RetainedMeans(db, h);
    }
  }

  /** What the invariant says of one operation. */
  lemma WhatIsKnown(t: State, op: OpId)
    requires Reachable(t)
    ensures (op in t.past.recorded ==> op in t.past.applied) && (op in t.past.refused ==> op !in t.past.applied)
    ensures t.lock == Some(Trying(op)) ==> IsPending(t.db.ops, op)
    ensures op in t.git.receipts ==> op in t.past.intents
  {
    var start, steps :| Initial(start) && Possible(start, steps) && After(start, steps) == t;
    Reaches(start, steps);
    KnownFrom(t, op);
  }

  /** What was recorded was applied, what was refused was not. */
  lemma Recounted(t: State, op: OpId)
    requires Reachable(t)
    ensures op in t.db.ops && t.db.ops[op].outcome == Recorded ==> op in t.past.recorded && op in t.past.applied
    ensures op in t.db.ops && t.db.ops[op].outcome == Rejected ==> op in t.past.refused && op !in t.past.applied
  {
    var start, steps :| Initial(start) && Possible(start, steps) && After(start, steps) == t;
    Reaches(start, steps);
    TruthOf(t, op);
  }

  lemma TruthOf(t: State, op: OpId)
    requires Journal(t.db.ops, t.db.pushes, t.past) && Once(t.past)
    ensures op in t.db.ops && t.db.ops[op].outcome == Recorded ==> op in t.past.recorded && op in t.past.applied
    ensures op in t.db.ops && t.db.ops[op].outcome == Rejected ==> op in t.past.refused && op !in t.past.applied
  {
    if op in t.db.ops {
      assert Truthful(t.db.ops[op].outcome, op, t.past);
    }
  }

  lemma KnownFrom(t: State, op: OpId)
    requires Informed(t) && Once(t.past) && Receipted(t.git.receipts, t.db.ops, t.past)
    ensures (op in t.past.recorded ==> op in t.past.applied) && (op in t.past.refused ==> op !in t.past.applied)
    ensures t.lock == Some(Trying(op)) ==> IsPending(t.db.ops, op)
    ensures op in t.git.receipts ==> op in t.past.intents
  {
  }

  // ----- what one attempt to carry out an unfinished operation comes to -----

  ghost predicate Fits(git: Git, intent: Intent) {
    ChangesFit(git.refs, ChangesOf(intent))
  }

  /** Git is asked to make the changes. */
  ghost predicate Asked(w: Weather, op: OpId, intent: Intent, git: Git) {
    w.looks && op !in git.receipts && Fits(git, intent)
  }

  /** Git makes the changes. */
  ghost predicate Taken(w: Weather, op: OpId, intent: Intent, git: Git) {
    Asked(w, op, intent, git) && w.gitWorks && GitAccepts(git, op, intent)
  }

  ghost function Interfered(w: Weather, git: Git): Git {
    if w.outsider.Some? then git.(refs := w.outsider.value) else git
  }

  /** Git after the attempt: with all of the changes or none, and with the refs moved by an
      outsider if the attempt was left without an answer. */
  ghost function LaterGit(w: Weather, op: OpId, intent: Intent, git: Git): Git {
    var taken := Taken(w, op, intent, git);
    var made := if taken then GitApply(git, op, intent) else git;
    if Asked(w, op, intent, git) && !(taken && !w.replyLost) then Interfered(w, made) else made
  }

  /** The attempt learns that Git holds the changes: their receipt was there, or Git made
      them and said so, or left a receipt that is seen afterwards. */
  ghost predicate Lands(w: Weather, op: OpId, intent: Intent, git: Git) {
    w.looks && if op in git.receipts then git.receipts[op] == intent else Taken(w, op, intent, git) && (w.replyLost ==> w.looksAgain)
  }

  /** The attempt learns that Git does not hold the changes and cannot: a ref has moved. */
  ghost predicate Rejects(w: Weather, op: OpId, intent: Intent, git: Git) {
    && w.looks && op !in git.receipts
    && (Fits(git, intent) ==> !Taken(w, op, intent, git) && w.looksAgain && !Fits(LaterGit(w, op, intent, git), intent))
  }

  /** The attempt gets as far as the recording transaction and finds the refs in place. */
  ghost predicate Records(w: Weather, peel: Oid -> Oid, free: bool, op: OpId, intent: Intent, git: Git) {
    Lands(w, op, intent, git) && w.personFound && free && Agrees(IndexOf(peel, LaterGit(w, op, intent, git).refs), intent)
  }

  /** The rows after a transaction. */
  ghost function Committed(reply: Reply, before: Db, after: Db): Db {
    if reply.Refused? then before else after
  }

  ghost function AttemptDb(w: Weather, peel: Oid -> Oid, free: bool, op: OpId, before: Db, git: Git): (after: Db)
    requires op in before.ops
    ensures op in after.ops && forall o :: o != op ==> (IsPending(after.ops, o) <==> IsPending(before.ops, o))
    ensures IsPending(after.ops, op) ==> IsPending(before.ops, op)
  {
    var intent := before.ops[op].intent;
    if Records(w, peel, free, op, intent, git) then
      Committed(w.close, before, PushProtocol.RecordPush(before, op, IndexOf(peel, LaterGit(w, op, intent, git).refs)))
    else if Rejects(w, op, intent, git) then Committed(w.close, before, Finish(before, op, Rejected))
    else before
  }

  /** The exact outcome of an attempt: it completes exactly when it records and hears so, it
      reports "not applied" exactly when it rejects and hears so, and fails otherwise. */
  ghost predicate Attempted(result: Attempt, w: Weather, peel: Oid -> Oid, free: bool, op: OpId, before: Db, after: Db, git: Git,
                            later: Git)
    requires op in before.ops
  {
    var intent := before.ops[op].intent;
    && (result == Completed <==> Records(w, peel, free, op, intent, git) && w.close.Fine?)
    && (result == NotApplied <==> Rejects(w, op, intent, git) && w.close.Fine?)
    && later == LaterGit(w, op, intent, git)
    && after == AttemptDb(w, peel, free, op, before, git)
  }

  /** An attempt that lands without a receipt has made the changes itself. */
  lemma LandedMeans(w: Weather, op: OpId, intent: Intent, git: Git)
    requires Lands(w, op, intent, git) && op !in git.receipts && w.outsider.None?
    ensures GitMoved(git, LaterGit(w, op, intent, git), op, intent)
  {
    ApplyMeans(git, op, intent);
  }

  /** What the first part of an attempt comes to: Git has landed or not, and only a rejection
      writes rows. */
  ghost predicate Brought(result: Attempt, w: Weather, op: OpId, before: Db, after: Db, git: Git, later: Git)
    requires op in before.ops
  {
    var intent := before.ops[op].intent;
    && (result == Completed <==> Lands(w, op, intent, git))
    && (result == NotApplied <==> Rejects(w, op, intent, git) && w.close.Fine?)
    && later == LaterGit(w, op, intent, git)
    && after == if Rejects(w, op, intent, git) then Committed(w.close, before, Finish(before, op, Rejected)) else before
  }

  /** What asking Git comes to. */
  ghost predicate Answered(result: Attempt, w: Weather, op: OpId, before: Db, after: Db, git: Git, later: Git)
    requires op in before.ops
  {
    var intent := before.ops[op].intent;
    var taken := w.gitWorks && GitAccepts(git, op, intent);
    var made := if taken then GitApply(git, op, intent) else git;
    var missed := !taken && w.looksAgain && !Fits(later, intent);
    && later == (if taken && !w.replyLost then made else Interfered(w, made))
    && (result == Completed <==> taken && (w.replyLost ==> w.looksAgain))
    && (result == NotApplied <==> missed && w.close.Fine?)
    && after == if missed then Committed(w.close, before, Finish(before, op, Rejected)) else before
  }

  lemma AnswerBrings(result: Attempt, w: Weather, op: OpId, before: Db, after: Db, git: Git, later: Git)
    requires op in before.ops && Answered(result, w, op, before, after, git, later)
    requires w.looks && op !in git.receipts && Fits(git, before.ops[op].intent)
    ensures Brought(result, w, op, before, after, git, later)
  {
  }

  lemma RefusalBrings(result: Attempt, w: Weather, op: OpId, before: Db, after: Db, git: Git)
    requires op in before.ops && w.looks && op !in git.receipts && !Fits(git, before.ops[op].intent)
    requires result == (if w.close.Fine? then NotApplied else Failed)
    requires after == Committed(w.close, before, Finish(before, op, Rejected))
    ensures Brought(result, w, op, before, after, git, git)
  {
  }

  /** The rows once the intent is durable. */
  ghost function Begun(db: Db, op: OpId, intent: Intent): (after: Db)
    ensures IsPending(after.ops, op)
  {
    db.(ops := db.ops[op := Operation(intent, Pending(false))])
  }

  /** What one turn of recovery does: nothing if the operation is finished by now, else one
      attempt, whose failure is noted on an operation that is still unfinished. */
  ghost predicate TurnMade(a: State, b: State, op: OpId, timedOut: bool, w: Weather, result: Attempt) {
    if !IsPending(a.db.ops, op) then result == Completed && b == a
    else
      var intent, tried := a.db.ops[op].intent, AttemptDb(w, a.peel, a.reader.None?, op, a.db, a.git);
      && (result == Completed <==> Records(w, a.peel, a.reader.None?, op, intent, a.git) && w.close.Fine?)
      && (result == NotApplied <==> Rejects(w, op, intent, a.git) && w.close.Fine?)
      && b.git == LaterGit(w, op, intent, a.git)
      && b.db == if result == Failed && !timedOut && w.noteWorks && IsPending(tried.ops, op) then Finish(tried, op, Pending(true)) else tried
  }

  /** What a turn means for the operations: one that does not fail is finished, and no other
      is affected. */
  lemma TurnMeans(a: State, b: State, op: OpId, timedOut: bool, w: Weather, result: Attempt)
    requires TurnMade(a, b, op, timedOut, w, result)
    ensures result != Failed ==> !IsPending(b.db.ops, op)
    ensures forall o :: IsPending(b.db.ops, o) ==> IsPending(a.db.ops, o)
    ensures forall o :: o != op && IsPending(a.db.ops, o) ==> IsPending(b.db.ops, o)
  {
  }

  /** The turns of the recovery loop, with the states between them. */
  ghost predicate TurnsMade(states: seq<State>, ops: seq<OpId>, timedOut: seq<bool>, w: seq<Weather>, results: seq<Attempt>) {
    && |states| == |results| + 1 && |results| <= |ops| == |timedOut| == |w|
    && (forall i :: 0 <= i < |results| ==> TurnMade(states[i], states[i + 1], ops[i], timedOut[i], w[i], results[i]))
  }

  lemma OneMoreTurn(states: seq<State>, ops: seq<OpId>, timedOut: seq<bool>, w: seq<Weather>, results: seq<Attempt>, next: State,
                    result: Attempt)
    requires TurnsMade(states, ops, timedOut, w, results) && |results| < |ops|
    requires TurnMade(states[|results|], next, ops[|results|], timedOut[|results|], w[|results|], result)
    ensures TurnsMade(states + [next], ops, timedOut, w, results + [result])
  {
  }

  /** After the loop only operations whose turn failed can be unfinished among those listed,
      and no operation has become unfinished. */
  lemma {:induction false} TurnsMean(states: seq<State>, ops: seq<OpId>, timedOut: seq<bool>, w: seq<Weather>, results: seq<Attempt>)
    requires TurnsMade(states, ops, timedOut, w, results)
    ensures var last := states[|results|];
            && (forall i :: 0 <= i < |results| && results[i] != Failed ==> !IsPending(last.db.ops, ops[i]))
            && (forall o :: IsPending(last.db.ops, o) ==> IsPending(states[0].db.ops, o))
  {
    if results != [] {
      var n := |results| - 1;
      assert TurnsMade(states[..n + 1], ops, timedOut, w, results[..n]);
      TurnsMean(states[..n + 1], ops, timedOut, w, results[..n]);
      TurnMeans(states[n], states[n + 1], ops[n], timedOut[n], w[n], results[n]);
      forall i | 0 <= i < n && results[i] != Failed ensures !IsPending(states[n].db.ops, ops[i]) {
        assert results[..n][i] == results[i];
      }
    }
  }

  class Server {
    const peel: Oid -> Oid
    var git: Git
    var db: Db
    /** Another writer's hold on the ref index. */
    var reader: Option<map<Ref, Oid>>
    ghost var lock: Option<Session>
    ghost var past: History

    ghost function View(): State
      reads this
    {
      State(peel, git, db, lock, reader, past)
    }

    /** Everything done so far was a step of the protocol. */
    ghost predicate Valid()
      reads this
    {
      Reachable(View())
    }

    constructor (s: State)
      requires Initial(s)
      ensures Valid() && View() == s
    {
      peel, git, db, reader := s.peel, s.git, s.db, s.reader;
      lock, past := s.lock, s.past;
      new;
      assert After(s, []) == s;
    }

    /** OperationApplied: whether the receipt is there; a receipt of another intent is an error. */
    method OperationApplied(op: OpId) returns (applied: bool, mismatch: bool)
      requires Valid() && Holds(View()) && (lock.value.Trying? || lock.value.Unsure?) && lock.value.op == op && op in db.ops
      modifies this`lock
      ensures Leads(old(View()), View())
      ensures Valid() && lock.Some?
      ensures mismatch <==> op in git.receipts && git.receipts[op] != db.ops[op].intent
      ensures !mismatch ==> (applied <==> op in git.receipts)
      ensures !mismatch && applied ==> lock == Some(Applied(op))
      ensures !mismatch && !applied ==> lock == Some(Unapplied(op, old(lock.value.Trying?)))
    {
      applied, mismatch := false, false;
      LeadsNowhere(View());
      if op !in git.receipts {
        lock := Some(Unapplied(op, lock.value.Trying?));
        Went(old(View()), SeeNoReceipt, View());
      } else if git.receipts[op] != db.ops[op].intent {
        mismatch := true;
      } else {
        applied := true;
        lock := Some(Applied(op));
        Went(old(View()), SeeReceipt, View());
      }
    }

    /** CheckRefChanges inside recoverPush. */
    method Check(op: OpId, changes: seq<Change>) returns (fits: bool)
      requires Valid() && Holds(View()) && lock.value.Unapplied? && lock.value.op == op && op in db.ops
      requires changes == ChangesOf(db.ops[op].intent)
      modifies this`lock
      ensures Leads(old(View()), View())
      ensures Valid() && lock.Some?
      ensures fits <==> ChangesFit(git.refs, changes)
      ensures !fits ==> lock == Some(Moved(op))
      ensures fits && old(lock.value.mayApply) ==> lock == Some(Clear(op))
    {
      fits := CheckRefChanges(git.refs, changes);
      LeadsNowhere(View());
      if !fits {
        lock := Some(Moved(op));
        Went(old(View()), CheckFails, View());
      } else if lock.value.mayApply {
        lock := Some(Clear(op));
        Went(old(View()), CheckPasses, View());
      }
    }

    /** RejectOperation: closes an intent that did not change Git. */
    method RejectOperation(op: OpId, w: Weather) returns (result: Attempt)
      requires Valid() && At(View(), Moved(op)) && IsPending(db.ops, op)
      modifies this`lock, this`db, this`past
      ensures Leads(old(View()), View())
      ensures Valid() && lock.Some?
      ensures result == if w.close.Fine? then NotApplied else Failed
      ensures db == Committed(w.close, old(db), Finish(old(db), op, Rejected))
      ensures if w.close.Refused? then db == old(db) else OnlyOutcome(old(db), db, op, Rejected)
      ensures !w.close.Refused? ==> op in past.refused
    {
      LeadsNowhere(View());
      if !w.close.Refused? {
        PushEffects.FinishMeans(db, op, Rejected);
        db := db.(ops := db.ops[op := db.ops[op].(outcome := Rejected)]);
        lock, past := Some(Done), past.(refused := past.refused + {op});
        Went(old(View()), RejectTx, View());
      }
      return if w.close.Fine? then NotApplied else Failed;
    }

    /** ApplyOperation: refs, pins and receipt in one Git transaction, whose reply may be lost. */
    method ApplyOperation(op: OpId, changes: seq<Change>, commits: seq<Oid>, w: Weather) returns (ok: bool)
      requires Valid() && At(View(), Clear(op)) && op in db.ops
      requires changes == ChangesOf(db.ops[op].intent) && Elements(commits) == Named(db.ops[op].intent) && 0 !in commits
      modifies this`lock, this`git, this`past
      ensures Leads(old(View()), View())
      ensures Valid()
      ensures lock == Some(if ok then Applied(op) else Unsure(op))
      ensures git == if w.gitWorks && GitAccepts(old(git), op, db.ops[op].intent)
                     then GitApply(old(git), op, db.ops[op].intent) else old(git)
      ensures ok <==> w.gitWorks && !w.replyLost && GitAccepts(old(git), op, db.ops[op].intent)
      ensures git == old(git) || GitMoved(old(git), git, op, db.ops[op].intent)
      ensures ok ==> GitMoved(old(git), git, op, db.ops[op].intent)
    {
      var accepted, after := RefTransaction(git, op, changes, commits, db.ops[op].intent);
      if !w.gitWorks || !accepted {
        ok, lock := false, Some(Unsure(op));
        Went(old(View()), ApplyFails, View());
        return;
      }
      ApplyMeans(git, op, db.ops[op].intent);
      git := after;
      ok := !w.replyLost;
      lock, past := Some(if ok then Applied(op) else Unsure(op)), past.(applied := past.applied + [op]);
      Went(old(View()), ApplyTakes(w.replyLost), View());
    }

    /** recordPush: one transaction, rolled back as a whole when Git's refs are not where the
        receipt put them, when another writer keeps the ref index, or when it cannot commit. */
    method RecordPush(op: OpId, w: Weather) returns (ok: bool)
      requires Valid() && At(View(), Applied(op)) && IsPending(db.ops, op)
      modifies this`lock, this`db, this`past
      ensures Leads(old(View()), View())
      ensures Valid() && lock.Some?
      ensures var records := reader.None? && Agrees(IndexOf(peel, git.refs), old(db).ops[op].intent);
              && (ok <==> records && w.close.Fine?)
              && db == (if records then Committed(w.close, old(db), PushProtocol.RecordPush(old(db), op, IndexOf(peel, git.refs))) else old(db))
              && (records && !w.close.Refused? ==> op in past.recorded)
              && (records && !w.close.Refused? ==> PushRecorded(old(db), db, op, old(db).ops[op].intent, peel, git.refs))
    {
      LeadsNowhere(View());
      if reader.Some? {
        return false;
      }
      var intent := db.ops[op].intent;
      var current := IndexOf(peel, git.refs);
      var queue, queued, diverged := CreateRuns(Queue(db.runs, db.counter), db.queued, op, intent, current);
      if diverged || w.close.Refused? {
        return false;
      }
      RecordingMeans(View());
      var index := SyncRefsRows(db.index, current);
      db := db.(index := index, pushes := db.pushes[op := intent], runs := queue.rows, counter := queue.counter, queued := queued,
                ops := db.ops[op := db.ops[op].(outcome := Recorded)]);
      lock := Some(Done);
      past := past.(recorded := past.recorded + [op], rows := past.rows + db.runs);
      Went(old(View()), RecordTx, View());
      return w.close.Fine?;
    }

    /** Somebody moves refs behind the protocol's back. */
    method Interfere(refs: map<Ref, Oid>)
      requires Valid() && forall r :: r in refs ==> refs[r] != 0
      modifies this`git, this`past
      ensures Leads(old(View()), View())
      ensures Valid() && git == old(git).(refs := refs)
    {
      git := git.(refs := refs);
      past := past.(outsider := true);
      Went(old(View()), Outsider(refs), View());
    }

    /** The branch of recoverPush for an intent without a receipt. A lost reply does not
        prove that Git refused, so the receipt is looked for again. */
    method ApplyIntent(op: OpId, w: Weather) returns (result: Attempt)
      requires Sane(w) && Valid() && At(View(), Unapplied(op, true)) && IsPending(db.ops, op) && op !in git.receipts && w.looks
      modifies this`lock, this`git, this`db, this`past
      ensures Leads(old(View()), View())
      ensures Valid() && lock.Some?
      ensures Brought(result, w, op, old(db), db, old(git), git)
      ensures result == Completed ==> At(View(), Applied(op))
    {
      var changes, commits := Collect(db.ops[op].intent);
      var fits := Check(op, changes);
      ghost var checked := View();
      if !fits {
        result := RejectOperation(op, w);
        LeadsThen(old(View()), checked, View());
        RefusalBrings(result, w, op, old(db), db, git);
        return;
      }
      result := AskGit(op, changes, commits, w);
      LeadsThen(old(View()), checked, View());
      AnswerBrings(result, w, op, old(db), db, old(git), git);
    }

    /** The Git transaction of recoverPush and what follows its error. */
    method AskGit(op: OpId, changes: seq<Change>, commits: seq<Oid>, w: Weather) returns (result: Attempt)
      requires Sane(w) && Valid() && At(View(), Clear(op)) && IsPending(db.ops, op) && op !in git.receipts
      requires changes == ChangesOf(db.ops[op].intent) && Elements(commits) == Named(db.ops[op].intent) && 0 !in commits
      modifies this`lock, this`git, this`db, this`past
      ensures Leads(old(View()), View())
      ensures Valid() && lock.Some?
      ensures result == Completed ==> At(View(), Applied(op))
      ensures Answered(result, w, op, old(db), db, old(git), git)
    {
      var ok := ApplyOperation(op, changes, commits, w);
      if ok {
        return Completed;
      }
      ghost var tried := View();
      result := LookAgain(op, changes, w);
      LeadsThen(old(View()), tried, View());
    }

    /** After an error from Git: a lost reply does not prove that Git refused. */
    method LookAgain(op: OpId, changes: seq<Change>, w: Weather) returns (result: Attempt)
      requires Sane(w) && Valid() && At(View(), Unsure(op)) && IsPending(db.ops, op) && changes == ChangesOf(db.ops[op].intent)
      requires op in git.receipts ==> git.receipts[op] == db.ops[op].intent
      modifies this`lock, this`git, this`db, this`past
      ensures Leads(old(View()), View())
      ensures Valid() && lock.Some? && git == Interfered(w, old(git))
      ensures result == Completed <==> w.looksAgain && op in git.receipts
      ensures result == Completed ==> At(View(), Applied(op))
      ensures var missed := w.looksAgain && op !in git.receipts && !ChangesFit(git.refs, changes);
              && (result == NotApplied <==> missed && w.close.Fine?)
              && db == if missed then Committed(w.close, old(db), Finish(old(db), op, Rejected)) else old(db)
    {
      LeadsNowhere(View());
      if w.outsider.Some? {
        Interfere(w.outsider.value);
      }
      if !w.looksAgain {
        return Failed;
      }
      ghost var moved := View();
      var applied, mismatch := OperationApplied(op);
      LeadsThen(old(View()), moved, View());
      if applied {
        return Completed;
      }
      ghost var looked := View();
      result := RejectIfMoved(op, changes, w);
      LeadsThen(old(View()), looked, View());
    }

    method RejectIfMoved(op: OpId, changes: seq<Change>, w: Weather) returns (result: Attempt)
      requires Valid() && At(View(), Unapplied(op, false)) && IsPending(db.ops, op) && changes == ChangesOf(db.ops[op].intent)
      modifies this`lock, this`db, this`past
      ensures Leads(old(View()), View())
      ensures Valid() && lock.Some?
      ensures result == if !ChangesFit(git.refs, changes) && w.close.Fine? then NotApplied else Failed
      ensures db == if !ChangesFit(git.refs, changes) then Committed(w.close, old(db), Finish(old(db), op, Rejected)) else old(db)
    {
      var fits := Check(op, changes);
      if fits {
        return Failed;
      }
      ghost var checked := View();
      result := RejectOperation(op, w);
      LeadsThen(old(View()), checked, View());
    }

    /** recoverPush, for a live push and for recovery alike: own protocol steps only, with
        exactly the outcome `Attempted` gives. */
    method RecoverPush(op: OpId, w: Weather) returns (result: Attempt)
      requires Sane(w) && Valid() && At(View(), Trying(op))
      modifies this`lock, this`git, this`db, this`past
      ensures Leads(old(View()), View())
      ensures Valid() && lock.Some? && op in old(db).ops
      ensures Attempted(result, w, peel, reader.None?, op, old(db), db, old(git), git)
      ensures result == Completed ==> PushRecorded(old(db), db, op, old(db).ops[op].intent, peel, git.refs)
      ensures result == Completed ==> op in past.recorded && op in past.applied
      ensures result == NotApplied ==> op in past.refused && op !in past.applied
    {
      WhatIsKnown(View(), op);
      result := MakeApplied(op, w);
      if result == Completed {
        ghost var applied := View();
        var recorded := RecordFor(op, w);
        LeadsThen(old(View()), applied, View());
        result := if recorded then Completed else Failed;
      }
      Recounted(View(), op);
    }

    /** The beginning of recoverPush: completed if the receipt is known to be there. */
    method MakeApplied(op: OpId, w: Weather) returns (result: Attempt)
      requires Sane(w) && Valid() && At(View(), Trying(op)) && IsPending(db.ops, op)
      modifies this`lock, this`git, this`db, this`past
      ensures Leads(old(View()), View())
      ensures Valid() && lock.Some?
      ensures Brought(result, w, op, old(db), db, old(git), git)
      ensures result == Completed ==> At(View(), Applied(op))
    {
      LeadsNowhere(View());
      if !w.looks {
        return Failed;
      }
      var applied, mismatch := OperationApplied(op);
      if mismatch {
        return Failed;
      }
      if applied {
        return Completed;
      }
      ghost var looked := View();
      result := ApplyIntent(op, w);
      LeadsThen(old(View()), looked, View());
    }

    /** The end of recoverPush: the pusher's account is read, then the push is recorded. */
    method RecordFor(op: OpId, w: Weather) returns (ok: bool)
      requires Valid() && At(View(), Applied(op)) && IsPending(db.ops, op)
      modifies this`lock, this`db, this`past
      ensures Leads(old(View()), View())
      ensures Valid() && lock.Some?
      ensures var records := w.personFound && reader.None? && Agrees(IndexOf(peel, git.refs), old(db).ops[op].intent);
              && (ok <==> records && w.close.Fine?)
              && db == (if records then Committed(w.close, old(db), PushProtocol.RecordPush(old(db), op, IndexOf(peel, git.refs))) else old(db))
      ensures ok ==> PushRecorded(old(db), db, op, old(db).ops[op].intent, peel, git.refs)
    {
      if !w.personFound {
        LeadsNowhere(View());
        return false;
      }
      ok := RecordPush(op, w);
    }

    /** WithMutation: takes the lock and refuses while an operation is unfinished. */
    method WithMutation(job: Job) returns (admitted: bool)
      requires Valid() && lock.None? && (job.PushJob? || job.StartJob? || job.PruneJob?)
      requires (job.PushJob? ==> Prepared(peel, job.intent)) && (job.StartJob? ==> job.commit != 0)
      modifies this`lock
      ensures Leads(old(View()), View())
      ensures Valid()
      ensures admitted <==> !AnyPending(db.ops)
      ensures admitted <==> forall op :: op in db.ops ==> !db.ops[op].outcome.Pending?
      ensures lock == if admitted then Some(Admitted(job)) else None
    {
      Enter(job);
      ghost var entered := View();
      admitted := true;
      var todo := db.ops.Keys;
      while todo != {}
        invariant todo <= db.ops.Keys
        invariant admitted <==> forall op :: op in db.ops && op !in todo ==> !db.ops[op].outcome.Pending?
      {
        var op :| op in todo;
        if IsPending(db.ops, op) {
          admitted := false;
        }
        todo := todo - {op};
      }
      if admitted {
        lock := Some(Admitted(job));
        Went(entered, Admit, View());
      } else {
        Unlock();
      }
      LeadsThen(old(View()), entered, View());
    }

    /** MutationLock. */
    method Enter(job: Job)
      requires Valid() && Enabled(View(), Acquire(job))
      modifies this`lock
      ensures Leads(old(View()), View()) && Valid() && lock == Some(Entered(job))
    {
      lock := Some(Entered(job));
      Went(old(View()), Acquire(job), View());
    }

    /** The deferred unlock, on success and on every error path. */
    method Unlock()
      requires Valid() && lock.Some?
      modifies this`lock
      ensures Leads(old(View()), View())
      ensures Valid() && lock.None?
    {
      lock := None;
      Went(old(View()), Release, View());
    }

    /** BeginOperation inside ApplyPush: `op` is a new identifier. */
    method BeginOperation(op: OpId, intent: Intent, w: Weather) returns (ok: bool)
      requires Valid() && At(View(), Checked(intent)) && op !in past.intents && !AnyPending(db.ops)
      modifies this`lock, this`db, this`past
      ensures Leads(old(View()), View())
      ensures Valid() && lock.Some? && ok == w.insert.Fine?
      ensures ok ==> At(View(), Trying(op))
      ensures db == Committed(w.insert, old(db), Begun(old(db), op, intent))
      ensures if w.insert.Refused? then db == old(db) else OperationBegun(old(db), db, op, intent)
    {
      LeadsNowhere(View());
      if !w.insert.Refused? {
        BeginningMeans(View(), op);
        db := db.(ops := db.ops[op := Operation(intent, Pending(false))]);
        lock, past := Some(Trying(op)), past.(intents := past.intents[op := intent]);
        Went(old(View()), Begin(op), View());
      }
      return w.insert.Fine?;
    }

    /** ApplyPush for validated updates. An empty push is done at once. One that finds an
        unfinished operation or a moved ref, or whose intent is refused, leaves no trace; one
        whose insert loses its reply leaves its intent to recovery; any other has exactly the
        outcome of RecoverPush. */
    method ApplyPush(intent: Intent, op: OpId, w: Weather) returns (begun: bool, result: Attempt)
      requires Sane(w) && Valid() && lock.None? && Prepared(peel, intent) && op !in past.intents
      modifies this`lock, this`git, this`db, this`past
      ensures Leads(old(View()), View())
      ensures Valid() && lock.None?
      ensures var admitted := intent != [] && !old(AnyPending(db.ops)) && Fits(old(git), intent);
              && (begun <==> admitted && w.insert.Fine?)
              && (!begun ==> result == (if intent == [] then Completed else Failed) && git == old(git))
              && (!begun ==> db == if admitted then Committed(w.insert, old(db), Begun(old(db), op, intent)) else old(db))
      ensures begun ==> Attempted(result, w, peel, reader.None?, op, Begun(old(db), op, intent), db, old(git), git)
      ensures begun ==> op !in old(git).receipts
      ensures begun && result == Completed ==> PushRecorded(Begun(old(db), op, intent), db, op, intent, peel, git.refs)
      ensures begun && result == Completed && w.outsider.None? ==> GitMoved(old(git), git, op, intent)
    {
      WhatIsKnown(View(), op);
      LeadsNowhere(View());
      if intent == [] {
        return false, Completed;
      }
      begun, result := false, Failed;
      var admitted := WithMutation(PushJob(intent));
      if !admitted {
        return;
      }
      ghost var entered := View();
      var changes, commits := Collect(intent);
      var fits := CheckRefChanges(git.refs, changes);
      if fits {
        begun, result := CarryOut(intent, op, w);
        LeadsThen(old(View()), entered, View());
        if begun && result == Completed && w.outsider.None? {
          LandedMeans(w, op, intent, old(git));
        }
      }
      ghost var done := View();
      Unlock();
      LeadsThen(old(View()), done, View());
    }

    /** The part of ApplyPush after its checks: the intent, then recoverPush. */
    method CarryOut(intent: Intent, op: OpId, w: Weather) returns (begun: bool, result: Attempt)
      requires Sane(w) && Valid() && At(View(), Admitted(PushJob(intent))) && op !in past.intents
      requires Fits(git, intent) && !AnyPending(db.ops)
      modifies this`lock, this`git, this`db, this`past
      ensures Leads(old(View()), View())
      ensures Valid() && lock.Some?
      ensures begun == w.insert.Fine?
      ensures !begun ==> result == Failed && git == old(git) && db == Committed(w.insert, old(db), Begun(old(db), op, intent))
      ensures begun ==> Attempted(result, w, peel, reader.None?, op, Begun(old(db), op, intent), db, old(git), git)
      ensures begun && result == Completed ==> PushRecorded(Begun(old(db), op, intent), db, op, intent, peel, git.refs)
    {
      result := Failed;
      begun := BeginPush(op, intent, w);
      if begun {
        ghost var begin := View();
        result := RecoverPush(op, w);
        LeadsThen(old(View()), begin, View());
      }
    }

    method BeginPush(op: OpId, intent: Intent, w: Weather) returns (ok: bool)
      requires Valid() && At(View(), Admitted(PushJob(intent))) && op !in past.intents
      requires Fits(git, intent) && !AnyPending(db.ops)
      modifies this`lock, this`db, this`past
      ensures Leads(old(View()), View())
      ensures Valid() && lock.Some? && ok == w.insert.Fine?
      ensures ok ==> At(View(), Trying(op))
      ensures db == Committed(w.insert, old(db), Begun(old(db), op, intent))
    {
      lock := Some(Checked(intent));
      Went(old(View()), CheckPush, View());
      ghost var checked := View();
      ok := BeginOperation(op, intent, w);
      LeadsThen(old(View()), checked, View());
    }

    /** One operation of RecoverOperations: replayed under the lock unless it finished while
        recovery waited, with its failure noted unless recovery ran out of time. */
    method RecoverOperation(op: OpId, timedOut: bool, w: Weather) returns (result: Attempt)
      requires Sane(w) && Valid() && lock.None?
      modifies this`lock, this`git, this`db, this`past
      ensures Leads(old(View()), View())
      ensures Valid() && lock.None?
      ensures TurnMade(old(View()), View(), op, timedOut, w, result)
    {
      result := ReplayIfPending(op, w);
      ghost var unlocked := View();
      if result == Failed && !timedOut && w.noteWorks && IsPending(db.ops, op) {
        NoteFailure(op);
        LeadsThen(old(View()), unlocked, View());
      }
    }

    /** The part of a turn under the lock. */
    method ReplayIfPending(op: OpId, w: Weather) returns (result: Attempt)
      requires Sane(w) && Valid() && lock.None?
      modifies this`lock, this`git, this`db, this`past
      ensures Leads(old(View()), View())
      ensures Valid() && lock.None?
      ensures !old(IsPending(db.ops, op)) ==> result == Completed && View() == old(View())
      ensures old(IsPending(db.ops, op)) ==> Attempted(result, w, peel, reader.None?, op, old(db), db, old(git), git)
    {
      Enter(RecoverJob(op));
      ghost var entered := View();
      result := Completed;
      if IsPending(db.ops, op) {
        result := Replay(op, w);
        LeadsThen(old(View()), entered, View());
      }
      ghost var replayed := View();
      Unlock();
      LeadsThen(old(View()), replayed, View());
    }

    method Replay(op: OpId, w: Weather) returns (result: Attempt)
      requires Sane(w) && Valid() && At(View(), Entered(RecoverJob(op))) && IsPending(db.ops, op)
      modifies this`lock, this`git, this`db, this`past
      ensures Leads(old(View()), View())
      ensures Valid() && lock.Some?
      ensures Attempted(result, w, peel, reader.None?, op, old(db), db, old(git), git)
    {
      lock := Some(Trying(op));
      Went(old(View()), Resume, View());
      ghost var resumed := View();
      result := RecoverPush(op, w);
      LeadsThen(old(View()), resumed, View());
    }

    /** RecoverOperations: one turn for each operation found unfinished, in order. */
    method RecoverOperations(ops: seq<OpId>, timedOut: seq<bool>, w: seq<Weather>)
      returns (results: seq<Attempt>, ghost states: seq<State>)
      requires Valid() && lock.None? && |timedOut| == |w| == |ops| && forall i :: 0 <= i < |w| ==> Sane(w[i])
      modifies this`lock, this`git, this`db, this`past
      ensures Leads(old(View()), View())
      ensures Valid() && lock.None? && |results| == |ops|
      ensures TurnsMade(states, ops, timedOut, w, results) && states[0] == old(View()) && states[|ops|] == View()
      ensures forall i :: 0 <= i < |ops| && results[i] != Failed ==> !IsPending(db.ops, ops[i])
      ensures forall op :: IsPending(db.ops, op) ==> old(IsPending(db.ops, op))
    {
      results, states := [], [View()];
      LeadsNowhere(View());
      for i := 0 to |ops|
        invariant Valid() && lock.None? && |results| == i
        invariant Leads(old(View()), View())
        invariant TurnsMade(states, ops, timedOut, w, results) && states[0] == old(View()) && states[i] == View()
      {
        ghost var before := View();
        var result := RecoverOperation(ops[i], timedOut[i], w[i]);
        LeadsThen(old(View()), before, View());
        OneMoreTurn(states, ops, timedOut, w, results, View(), result);
        results, states := results + [result], states + [View()];
      }
      TurnsMean(states, ops, timedOut, w, results);
    }

    method NoteFailure(op: OpId)
      requires Valid() && IsPending(db.ops, op)
      modifies this`db
      ensures Leads(old(View()), View())
      ensures Valid() && db == Finish(old(db), op, Pending(true)) && OnlyOutcome(old(db), db, op, Pending(true))
    {
      PushEffects.FinishMeans(db, op, Pending(true));
      db := db.(ops := db.ops[op := db.ops[op].(outcome := Pending(true))]);
      Went(old(View()), NoteError(op), View());
    }

    /** AbandonOperation: only an unfinished operation with a recorded failure and no receipt. */
    method AbandonOperation(op: OpId, w: Weather) returns (abandoned: bool)
      requires Valid() && lock.None?
      modifies this`lock, this`db, this`past
      ensures Leads(old(View()), View())
      ensures Valid() && lock.None?
      ensures var may := w.looks && old(IsPending(db.ops, op)) && old(db).ops[op].outcome.noted && op !in git.receipts;
              && (abandoned <==> may && w.close.Fine?)
              && (may ==> db == Committed(w.close, old(db), Finish(old(db), op, Abandoned)))
              && (!may ==> db == old(db))
              && (may && !w.close.Refused? ==> op in past.refused && op !in past.applied && OnlyOutcome(old(db), db, op, Abandoned))
    {
      abandoned := false;
      Enter(AbandonJob(op));
      ghost var entered := View();
      if w.looks && IsPending(db.ops, op) && db.ops[op].outcome.noted && op !in git.receipts && !w.close.Refused? {
        CloseAbandoned(op);
        LeadsThen(old(View()), entered, View());
        abandoned := w.close.Fine?;
      }
      ghost var closed := View();
      Unlock();
      LeadsThen(old(View()), closed, View());
      WhatIsKnown(View(), op);
    }

    method CloseAbandoned(op: OpId)
      requires Valid() && At(View(), Entered(AbandonJob(op)))
      requires IsPending(db.ops, op) && db.ops[op].outcome.noted && op !in git.receipts
      modifies this`lock, this`db, this`past
      ensures Leads(old(View()), View())
      ensures Valid() && lock.Some? && op in past.refused
      ensures db == Finish(old(db), op, Abandoned) && OnlyOutcome(old(db), db, op, Abandoned)
    {
      PushEffects.FinishMeans(db, op, Abandoned);
      Despair(op);
      ghost var hopeless := View();
      db := db.(ops := db.ops[op := db.ops[op].(outcome := Abandoned)]);
      lock, past := Some(Done), past.(refused := past.refused + {op});
      Went(hopeless, AbandonTx, View());
      LeadsThen(old(View()), hopeless, View());
    }

    method Despair(op: OpId)
      requires Valid() && At(View(), Entered(AbandonJob(op)))
      requires IsPending(db.ops, op) && db.ops[op].outcome.noted && op !in git.receipts
      modifies this`lock
      ensures Leads(old(View()), View()) && Valid() && lock == Some(Hopeless(op))
    {
      lock := Some(Hopeless(op));
      Went(old(View()), Step.Despair, View());
    }

    /** One repository of PruneGitPins: nothing while an operation is unfinished, otherwise
        exactly the retained objects stay pinned. `objects` and `operations` are the rows in
        whatever order the queries list them. */
    method PruneGitPins(objects: seq<Oid>, operations: seq<OpId>, w: Weather) returns (pruned: bool)
      requires Valid() && lock.None?
      requires (forall h :: h in objects <==> RowNames(db, h)) && (forall o :: o in operations <==> o in db.ops)
      modifies this`lock, this`git
      ensures Leads(old(View()), View())
      ensures Valid() && lock.None?
      ensures pruned <==> !AnyPending(db.ops) && w.gitWorks && !w.replyLost
      ensures if !AnyPending(db.ops) && w.gitWorks then Pruned(old(git), git, db, db.ops) else git == old(git)
    {
      var admitted := WithMutation(PruneJob);
      if !admitted {
        return false;
      }
      if w.gitWorks {
        ghost var entered := View();
        Reconcile(objects, operations);
        LeadsThen(old(View()), entered, View());
      }
      pruned := w.gitWorks && !w.replyLost;
      ghost var reconciled := View();
      Unlock();
      LeadsThen(old(View()), reconciled, View());
    }

    /** The listing and ReconcilePins, under the lock. */
    method Reconcile(objects: seq<Oid>, operations: seq<OpId>)
      requires Valid() && At(View(), Admitted(PruneJob))
      requires (forall h :: h in objects <==> RowNames(db, h)) && (forall o :: o in operations <==> o in db.ops)
      modifies this`lock, this`git
      ensures Leads(old(View()), View()) && Valid() && lock.Some?
      ensures Pruned(old(git), git, db, db.ops)
    {
      ListedRows(db, objects, operations);
      ReconcileMeans(git, db, db.ops);
      ListRows();
      ghost var listed := View();
      git := ReconcilePins(git, objects, operations);
      lock := Some(Done);
      Went(listed, ReconcileTx, View());
      LeadsThen(old(View()), listed, View());
    }

    /** The two queries PruneGitPins makes. */
    method ListRows()
      requires Valid() && At(View(), Admitted(PruneJob))
      modifies this`lock
      ensures Leads(old(View()), View())
      ensures Valid() && At(View(), ListedAll(Retained(db), db.ops.Keys))
    {
      lock := Some(Listed(Retained(db)));
      Went(old(View()), ListObjects, View());
      ghost var listed := View();
      lock := Some(ListedAll(Retained(db), db.ops.Keys));
      Went(listed, ListOperations, View());
      LeadsThen(old(View()), listed, View());
    }

    /** Start: a manual run's commit is pinned before its row exists. `queues` says that the
        run can proceed. */
    method Start(ref: Ref, commit: Oid, queues: bool, w: Weather) returns (started: bool)
      requires Valid() && lock.None? && commit != 0
      modifies this`lock, this`git, this`db, this`past
      ensures Leads(old(View()), View())
      ensures Valid() && lock.None?
      ensures var admitted := !old(AnyPending(db.ops));
              var pinned := admitted && w.gitWorks;
              var created := pinned && !w.replyLost && w.looksAgain;
              && (started <==> created && w.close.Fine?)
              && git == (if pinned then old(git).(pins := old(git).pins + {commit}) else old(git))
              && (if created && !w.close.Refused? then ManualAdded(old(db), db, ref, commit, queues) else db == old(db))
    {
      started := false;
      var admitted := WithMutation(StartJob(ref, commit));
      if !admitted {
        return;
      }
      if w.gitWorks {
        ghost var entered := View();
        PinCommit(ref, commit);
        LeadsThen(old(View()), entered, View());
        if !w.replyLost && w.looksAgain && !w.close.Refused? {
          ghost var pinned := View();
          CreateManual(ref, commit, queues);
          LeadsThen(old(View()), pinned, View());
          started := w.close.Fine?;
        }
      }
      ghost var done := View();
      Unlock();
      LeadsThen(old(View()), done, View());
    }

    /** The transaction of Start. */
    method CreateManual(ref: Ref, commit: Oid, queues: bool)
      requires Valid() && At(View(), Pinned(ref, commit))
      modifies this`lock, this`db, this`past
      ensures Leads(old(View()), View()) && Valid() && lock.Some?
      ensures ManualAdded(old(db), db, ref, commit, queues)
    {
      CreatingMeans(View(), ref, commit, queues);
      var number := db.counter + 1;
      var waiting := Cancelled(db.queued, db.runs, ref);
      if queues {
        waiting := waiting + {number};
      }
      db := db.(runs := db.runs[number := Run(None, ref, commit)], counter := number, queued := waiting);
      past := past.(rows := past.rows + db.runs);
      lock := Some(Done);
      Went(old(View()), StartTx(queues), View());
    }

    method PinCommit(ref: Ref, commit: Oid)
      requires Valid() && At(View(), Admitted(StartJob(ref, commit)))
      modifies this`lock, this`git
      ensures Leads(old(View()), View())
      ensures Valid() && At(View(), Pinned(ref, commit))
      ensures git == old(git).(pins := old(git).pins + {commit})
    {
      git := git.(pins := git.pins + {commit});
      lock := Some(Pinned(ref, commit));
      Went(old(View()), PinTx, View());
    }
  }

  /** The runs recordPush creates and the waiting ones it cancels, or the first ref that is
      not where the receipt put it. No earlier row changes, and each ref whose record asks
      for a run gets exactly one. */
  method CreateRuns(queue0: Queue, queued0: set<nat>, op: OpId, intent: Intent, current: map<Ref, Oid>)
    returns (queue: Queue, queued: set<nat>, diverged: bool)
    ensures diverged <==> !Agrees(current, intent)
    ensures diverged <==> exists k ::
      0 <= k < |intent| && intent[k].to != 0 && intent[k].runOnPush && !(intent[k].ref in current && current[intent[k].ref] == intent[k].commit)
    ensures !diverged ==> queue == QueueRuns(queue0, op, intent) && queued == QueuedAfter(queue0, queued0, op, intent, current)
    ensures !diverged && (forall k :: k in queue0.rows ==> k <= queue0.counter) ==>
      && (forall k :: k in queue0.rows ==> k in queue.rows && queue.rows[k] == queue0.rows[k])
      && Answers(queue0, queue, op, intent)
    ensures !diverged && NoneOf(queue0, op) && OnePerRef(queue0.rows) && DistinctRefs(ChangesOf(intent)) ==> OnePerRef(queue.rows)
  {
    queue, queued, diverged := queue0, queued0, false;
    var i := 0;
    while i < |intent|
      invariant 0 <= i <= |intent|
      invariant queue == QueueRuns(queue0, op, intent[..i]) && queued == QueuedAfter(queue0, queued0, op, intent[..i], current)
      invariant forall k :: 0 <= k < i && Runs(intent[k]) ==> intent[k].ref in current && current[intent[k].ref] == intent[k].commit
    {
      var rec := intent[i];
      OneMoreRecord(queue0, queued0, op, intent, i, current);
      if rec.to == 0 {
        if rec.ref !in current {
          queued := Cancelled(queued, queue.rows, rec.ref);
        }
      } else if rec.runOnPush {
        if rec.ref !in current || current[rec.ref] != rec.commit {
          AgreesByRecord(current, intent);
          return queue, queued, true;
        }
        var number := queue.counter + 1;
        queued := Cancelled(queued, queue.rows, rec.ref);
        if rec.queues {
          queued := queued + {number};
        }
        queue := Queue(queue.rows[number := Run(Some(op), rec.ref, rec.commit)], number);
      }
      i := i + 1;
    }
    assert intent[..|intent|] == intent;
    Created(queue0, op, intent);
    AgreesByRecord(current, intent);
  }

  lemma OneMoreRecord(q: Queue, queued: set<nat>, op: OpId, intent: Intent, i: nat, current: map<Ref, Oid>)
    requires i < |intent|
    ensures var r, before, waiting := intent[i], QueueRuns(q, op, intent[..i]), QueuedAfter(q, queued, op, intent[..i], current);
            var after := if Runs(r) then AddRun(before, Run(Some(op), r.ref, r.commit)) else before;
            && QueueRuns(q, op, intent[..i + 1]) == after
            && QueuedAfter(q, queued, op, intent[..i + 1], current)
               == if Runs(r) then Cancelled(waiting, before.rows, r.ref) + if r.queues then {after.counter} else {}
                  else if r.to == 0 && r.ref !in current then Cancelled(waiting, before.rows, r.ref)
                  else waiting
  {
    assert intent[..i + 1][..i] == intent[..i];
  }

  lemma AgreesByRecord(current: map<Ref, Oid>, intent: Intent)
    ensures Agrees(current, intent) <==>
              forall k :: 0 <= k < |intent| && Runs(intent[k]) ==> intent[k].ref in current && current[intent[k].ref] == intent[k].commit
  {
    if Agrees(current, intent) {
      forall k | 0 <= k < |intent| && Runs(intent[k]) ensures intent[k].ref in current && current[intent[k].ref] == intent[k].commit {
        assert intent[k] in intent;
      }
    }
  }

  /** Numbers in use are counted, and no row belongs to the operation yet. */
  ghost predicate NoneOf(q: Queue, op: OpId) {
    forall k :: k in q.rows ==> k <= q.counter && q.rows[k].push != Some(op)
  }

  lemma Created(q: Queue, op: OpId, intent: Intent)
    ensures var after := QueueRuns(q, op, intent);
            && ((forall k :: k in q.rows ==> k <= q.counter) ==>
                  (forall k :: k in q.rows ==> k in after.rows && after.rows[k] == q.rows[k]) && Answers(q, after, op, intent))
            && (NoneOf(q, op) && OnePerRef(q.rows) && DistinctRefs(ChangesOf(intent)) ==> OnePerRef(after.rows))
  {
    QueueExtends(q, op, intent);
    if forall k :: k in q.rows ==> k <= q.counter {
      QueueAsked(q, op, intent);
    }
    if NoneOf(q, op) && OnePerRef(q.rows) && DistinctRefs(ChangesOf(intent)) {
      QueueOnePerRef(q, op, intent);
    }
  }
}
