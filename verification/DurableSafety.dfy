// What every run of the durable system keeps: chained append-only histories, bounded
// recovery, one terminal event, exact replay.

module DurableSafety {
  import opened Common
  import opened DurableRuns
  import opened DurableHistory
  import opened DurableTables
  import opened DurableSystem

  lemma EvolvesSelf(db: Db)
    ensures Evolves(db, db)
  {
  }

  /** Nothing but receipts, executors and what was returned has changed. */
  ghost predicate OnlyActions(s: Sys, t: Sys) {
    && t == s.(db := t.db, executors := t.executors, returned := t.returned)
    && t.db == s.db.(receipts := t.db.receipts)
  }

  lemma ReserveFrame(s: Sys, e: nat, id: string, name: string, tool: string, arguments: string)
    ensures OnlyActions(s, Reserve(s, e, id, name, tool, arguments))
  {
    hide MakeActionKey;
  }

  lemma CompleteFrame(db: Db, key: ActionKey, outcome: Json)
    ensures var after := CompleteAction(db, key, outcome).0; after == db.(receipts := after.receipts)
  {
  }

  lemma FailFrame(db: Db, key: ActionKey, errorType: string, message: string)
    ensures var after := FailAction(db, key, errorType, message).0; after == db.(receipts := after.receipts)
  {
    hide FailureOutcome, Blank;
  }

  lemma SettleFrame(s: Sys, e: nat)
    requires e in s.executors && s.executors[e].Called?
    ensures OnlyActions(s, Settle(s, e))
  {
    hide CompleteAction, FailAction;
    match s.executors[e].result
    case Returned(outcome) => CompleteFrame(s.db, s.executors[e].key, outcome);
    case Threw(errorType, message) => FailFrame(s.db, s.executors[e].key, errorType, message);
  }

  lemma DecideDb(p: RecoveryPolicy, s: Sys, c: nat, now: Time)
    requires c in s.coordinators && s.coordinators[c].todo != [] && s.coordinators[c].receipts.Some?
    ensures var run := s.coordinators[c].todo[0];
            var d := Classify(p, run, s.coordinators[c].receipts.value);
            Decide(p, s, c, now).db
            == (if d.action == NoAction then s.db else ApplyTo(s.db, run.runId, RecoveryMove(run, d, now)).0)
  {
  }

  lemma CreateKeepsTables(p: RecoveryPolicy, s: Sys, step: Step)
    requires DbOk(s.db) && step.CreateStep?
    ensures DbOk(Next(p, s, step).db) && Evolves(s.db, Next(p, s, step).db)
  {
    CreateRunOk(s.db, step.runId, step.digest, step.key, step.metadata, step.now);
  }

  lemma RunKeepsTables(p: RecoveryPolicy, s: Sys, id: string, op: RunOp)
    requires DbOk(s.db)
    ensures DbOk(Next(p, s, RunStep(id, op)).db) && Evolves(s.db, Next(p, s, RunStep(id, op)).db)
  {
    ApplyToOk(s.db, id, op);
  }

  lemma ClaimKeepsTables(p: RecoveryPolicy, s: Sys, worker: string, seconds: Time, now: Time)
    requires DbOk(s.db)
    ensures DbOk(Next(p, s, ClaimStep(worker, seconds, now)).db)
    ensures Evolves(s.db, Next(p, s, ClaimStep(worker, seconds, now)).db)
  {
    ClaimNextOk(s.db, worker, seconds, now);
  }

  lemma DecideKeepsTables(p: RecoveryPolicy, s: Sys, c: nat, now: Time)
    requires DbOk(s.db) && c in s.coordinators && s.coordinators[c].todo != [] && s.coordinators[c].receipts.Some?
    ensures DbOk(Decide(p, s, c, now).db) && Evolves(s.db, Decide(p, s, c, now).db)
  {
    hide *;
    DecideDb(p, s, c, now);
    EvolvesSelf(s.db);
    var run := s.coordinators[c].todo[0];
    ApplyToOk(s.db, run.runId, RecoveryMove(run, Classify(p, run, s.coordinators[c].receipts.value), now));
  }

  predicate WritesTables(step: Step) {
    step.CreateStep? || step.RunStep? || step.ClaimStep? || step.DecideStep?
  }

  /** Listing, counting, actions and readers touch neither runs nor keys. */
  lemma OthersKeepTables(p: RecoveryPolicy, s: Sys, step: Step)
    requires !WritesTables(step)
    ensures var t := Next(p, s, step); t.db.runs == s.db.runs && t.db.keys == s.db.keys && t.silent == s.silent
  {
    hide Reserve, Settle, RecoveryCandidates, Paged, ReceiptCount;
    match step
    case ReserveStep(e, id, name, tool, arguments) => ReserveFrame(s, e, id, name, tool, arguments);
    case SettleStep(e) => if e in s.executors && s.executors[e].Called? { SettleFrame(s, e); }
    case _ =>
  }

  lemma SameTables(a: Db, b: Db)
    requires DbOk(a) && b.runs == a.runs && b.keys == a.keys
    ensures DbOk(b) && Evolves(a, b)
  {
  }

  /** Every step keeps the tables sound and rewrites nothing already recorded. */
  lemma StepKeepsTables(p: RecoveryPolicy, s: Sys, step: Step)
    requires DbOk(s.db)
    ensures DbOk(Next(p, s, step).db) && Evolves(s.db, Next(p, s, step).db)
  {
    match step
    case CreateStep(_, _, _, _, _) =>
      hide *;
      CreateKeepsTables(p, s, step);
    case RunStep(id, op) =>
      hide *;
      RunKeepsTables(p, s, id, op);
    case ClaimStep(worker, seconds, now) =>
      hide *;
      ClaimKeepsTables(p, s, worker, seconds, now);
    case DecideStep(c, now) =>
      hide DbOk, Evolves, Decide;
      if c in s.coordinators && s.coordinators[c].todo != [] && s.coordinators[c].receipts.Some? {
        DecideKeepsTables(p, s, c, now);
      } else {
        EvolvesSelf(s.db);
      }
    case _ =>
      assert !WritesTables(step);
      hide *;
      OthersKeepTables(p, s, step);
      SameTables(s.db, Next(p, s, step).db);
  }

  /** In every reachable store each run's log is a chain of allowed moves numbered from zero,
      the row is its last entry, terminal_reason is set exactly on terminal runs, and only a
      running or cancelling run has a lease. */
  lemma {:induction false} ReachableTablesOk(p: RecoveryPolicy, trace: seq<Sys>, steps: seq<Step>, n: nat)
    requires Behaviour(p, trace, steps) && n < |trace|
    ensures DbOk(trace[n].db)
  {
    hide Next;
    if n > 0 {
      ReachableTablesOk(p, trace, steps, n - 1);
      assert StepAt(p, trace, steps, n - 1);
      StepKeepsTables(p, trace[n - 1], steps[n - 1]);
    }
  }

  /** In every run logs, event streams and creation keys only grow. */
  lemma {:induction false} HistoryOnlyGrows(p: RecoveryPolicy, trace: seq<Sys>, steps: seq<Step>, m: nat, n: nat)
    requires Behaviour(p, trace, steps) && m <= n < |trace|
    ensures Evolves(trace[m].db, trace[n].db)
    decreases n
  {
    hide Next;
    if m == n {
      EvolvesSelf(trace[m].db);
    } else {
      HistoryOnlyGrows(p, trace, steps, m, n - 1);
      assert StepAt(p, trace, steps, n - 1);
      ReachableTablesOk(p, trace, steps, n - 1);
      StepKeepsTables(p, trace[n - 1], steps[n - 1]);
      EvolvesTransitive(trace[m].db, trace[n - 1].db, trace[n].db);
    }
  }

  /** A run that reached a terminal state keeps its state, version and reason for ever. */
  lemma TerminalForEver(p: RecoveryPolicy, trace: seq<Sys>, steps: seq<Step>, m: nat, n: nat, id: string)
    requires Behaviour(p, trace, steps) && m <= n < |trace|
    requires id in trace[m].db.runs && Terminal(trace[m].db.runs[id].row.state)
    ensures id in trace[n].db.runs
    ensures var a := trace[m].db.runs[id];
            var b := trace[n].db.runs[id];
            b.log == a.log && b.row.state == a.row.state && b.row.version == a.row.version
            && b.row.terminalReason == a.row.terminalReason
  {
    ReachableTablesOk(p, trace, steps, m);
    ReachableTablesOk(p, trace, steps, n);
    HistoryOnlyGrows(p, trace, steps, m, n);
    var a := trace[m].db.runs[id];
    var b := trace[n].db.runs[id];
    assert b.log[|a.log| - 1] == a.log[|a.log| - 1];
    TerminalIsLast(b.log, |a.log| - 1);
  }

  /** A run seen cancelling can only end stopped, failed or in manual recovery. */
  lemma CancellationWinsEverywhere(p: RecoveryPolicy, trace: seq<Sys>, steps: seq<Step>, m: nat, n: nat, id: string)
    requires Behaviour(p, trace, steps) && m <= n < |trace|
    requires id in trace[m].db.runs && trace[m].db.runs[id].row.state == Cancelling
    ensures id in trace[n].db.runs
    ensures trace[n].db.runs[id].row.state in {Cancelling, Stopped, Failed, RecoveryRequired}
  {
    ReachableTablesOk(p, trace, steps, m);
    ReachableTablesOk(p, trace, steps, n);
    HistoryOnlyGrows(p, trace, steps, m, n);
    var a := trace[m].db.runs[id];
    var b := trace[n].db.runs[id];
    assert b.log[|a.log| - 1] == a.log[|a.log| - 1];
    if |b.log| > |a.log| {
      CancellationWins(b.log, |a.log| - 1, |b.log| - 1);
    }
  }

  // ---- bounded recovery ----

  /** Requeueing and the recovery counter are left to the coordinators. */
  predicate LeavesRecoveryAlone(step: Step) {
    step.RunStep? && step.op.Transition? ==> !step.op.bump && !IsRequeue(step.op)
  }

  ghost predicate RecoveryCounted(r: Record) {
    r.row.recoveryAttempts == Requeues(r.log) <= 1
  }

  /** A listed row is a true picture of the run at some past version. */
  ghost predicate TrueSnapshot(db: Db, run: Run) {
    && run.runId in db.runs
    && var log := db.runs[run.runId].log;
       && run.version < |log| && log[run.version].to == run.state && run.state in {Running, Cancelling}
       && run.recoveryAttempts == Requeues(log[..run.version + 1])
  }

  ghost predicate RecoveryInv(s: Sys) {
    && AllCounted(s.db)
    && (forall c, i :: c in s.coordinators && 0 <= i < |s.coordinators[c].todo| ==>
          TrueSnapshot(s.db, s.coordinators[c].todo[i]))
    && s.invalidEdges == 0
  }

  lemma SnapshotSurvives(a: Db, b: Db, run: Run)
    requires Evolves(a, b) && TrueSnapshot(a, run)
    ensures TrueSnapshot(b, run)
  {
    assert b.runs[run.runId].log[..run.version + 1] == a.runs[run.runId].log[..run.version + 1];
  }

  lemma CurrentRowIsTrue(db: Db, id: string)
    requires DbOk(db) && id in db.runs && RecoveryCounted(db.runs[id])
    requires db.runs[id].row.state in {Running, Cancelling}
    ensures TrueSnapshot(db, db.runs[id].row)
  {
    var r := db.runs[id];
    assert r.log[..|r.log|] == r.log;
  }

  lemma ListedRowsAreTrue(db: Db, now: Time)
    requires DbOk(db) && AllCounted(db)
    ensures forall i :: 0 <= i < |RecoveryCandidates(db, now)| ==> TrueSnapshot(db, RecoveryCandidates(db, now)[i])
  {
    var ids := InOrder(UpdatedAt(db), AbandonedIds(db, now));
    forall i | 0 <= i < |RecoveryCandidates(db, now)|
      ensures TrueSnapshot(db, RecoveryCandidates(db, now)[i])
    {
      CurrentRowIsTrue(db, ids[i]);
    }
  }

  lemma RecoveryEdge(run: Run, d: Decision, now: Time)
    requires run.state in {Running, Cancelling} && (d.action == Requeue ==> run.state == Running)
    ensures var op := RecoveryMove(run, d, now);
            && op.Transition? && op.next in AllowedNext(op.expected)
            && (IsRequeue(op) <==> d.action == Requeue) && (op.bump <==> d.action == Requeue)
            && op.expected == run.state && op.version == run.version
  {
  }

  lemma TransitionMatches(r: Record, op: RunOp)
    requires op.Transition? && op.next in AllowedNext(op.expected)
    ensures Apply(r, op) != Err(InvalidTransition)
    ensures Apply(r, op).Ok? ==> r.row.version == op.version
  {
    hide Moved, Blank;
  }

  /** The heart of the bound: a compare-and-swap that succeeds on a true snapshot sees the
      attempts of that very version, so a requeue decided on it is the first one. */
  lemma MoveCounted(r: Record, run: Run, d: Decision, now: Time)
    requires RecordOk(r) && RecoveryCounted(r) && run.version < |r.log| && run.state in {Running, Cancelling}
    requires run.recoveryAttempts == Requeues(r.log[..run.version + 1])
    requires d.action == Requeue ==> run.state == Running && run.recoveryAttempts == 0
    ensures Apply(r, RecoveryMove(run, d, now)) != Err(InvalidTransition)
    ensures Apply(r, RecoveryMove(run, d, now)).Ok? ==> RecoveryCounted(Apply(r, RecoveryMove(run, d, now)).value)
  {
    var op := RecoveryMove(run, d, now);
    RecoveryEdge(run, d, now);
    TransitionMatches(r, op);
    assert |r.log| == r.row.version + 1;
    hide RecoveryMove, Apply, Requeues, RecordOk, IsRequeue, AllowedNext;
    if Apply(r, op).Ok? {
      RequeueCount(r, op);
      assert r.log[..run.version + 1] == r.log;
    }
  }

  lemma RecoveryMoveCounted(p: RecoveryPolicy, db: Db, run: Run, receipts: nat, now: Time)
    requires RequeuesOnce(p) && DbOk(db) && TrueSnapshot(db, run) && RecoveryCounted(db.runs[run.runId])
    requires Classify(p, run, receipts).action != NoAction
    ensures var op := RecoveryMove(run, Classify(p, run, receipts), now);
            && ApplyTo(db, run.runId, op).1 != Some(InvalidTransition)
            && RecoveryCounted(ApplyTo(db, run.runId, op).0.runs[run.runId])
  {
    hide Classify, RecoveryMove, Apply, RecordOk, Requeues, RecoveryCounted;
    MoveCounted(db.runs[run.runId], run, Classify(p, run, receipts), now);
  }

  ghost predicate AllCounted(db: Db) {
    forall id :: id in db.runs ==> RecoveryCounted(db.runs[id])
  }

  lemma ReplaceCounted(db: Db, id: string, q: Record)
    requires AllCounted(db) && RecoveryCounted(q)
    ensures AllCounted(db.(runs := db.runs[id := q]))
  {
    hide RecoveryCounted;
  }

  lemma OneCounts(r: Record, op: RunOp)
    requires RecordOk(r) && RecoveryCounted(r) && Apply(r, op).Ok? && (op.Transition? ==> !op.bump && !IsRequeue(op))
    ensures RecoveryCounted(Apply(r, op).value)
  {
    hide Apply, Requeues, RecordOk;
    RequeueCount(r, op);
  }

  lemma StepCountsRecovery(p: RecoveryPolicy, db: Db, runId: string, op: RunOp)
    requires DbOk(db) && (op.Transition? ==> !op.bump && !IsRequeue(op)) && AllCounted(db)
    ensures AllCounted(ApplyTo(db, runId, op).0)
  {
    hide Apply, RecoveryCounted, RecordOk;
    if runId in db.runs && Apply(db.runs[runId], op).Ok? {
      OneCounts(db.runs[runId], op);
      ReplaceCounted(db, runId, Apply(db.runs[runId], op).value);
    }
  }

  lemma ClaimCounts(r: Record, worker: string, seconds: Time, now: Time)
    requires RecordOk(r) && RecoveryCounted(r) && r.row.state == Queued
    ensures RecoveryCounted(Claimed(r, worker, seconds, now))
  {
    RequeuesPush(r.log, Claimed(r, worker, seconds, now).log[|r.log|]);
    hide Requeues;
  }

  lemma ClaimCountsRecovery(db: Db, worker: string, seconds: Time, now: Time)
    requires DbOk(db) && AllCounted(db)
    ensures AllCounted(ClaimNext(db, worker, seconds, now).0)
  {
    hide RecoveryCounted, RecordOk, Claimed, Earliest;
    if !(Blank(worker) || seconds <= 0.0) && QueuedIds(db) != {} {
      var id := Earliest(CreatedAt(db), QueuedIds(db));
      assert id in QueuedIds(db);
      ClaimCounts(db.runs[id], Strip(worker), seconds, now);
      ReplaceCounted(db, id, Claimed(db.runs[id], Strip(worker), seconds, now));
    }
  }

  lemma CreateCountsRecovery(db: Db, runId: string, digest: string, key: Option<string>, metadata: Metadata, now: Time)
    requires AllCounted(db)
    ensures AllCounted(CreateRun(db, runId, digest, key, metadata, now).0)
  {
    CreateRunInserts(db, runId, digest, key, metadata, now);
    assert RecoveryCounted(Fresh(runId, Strip(digest), metadata, now));
  }

  lemma SnapshotsSurvive(p: RecoveryPolicy, s: Sys, step: Step)
    requires DbOk(s.db) && RecoveryInv(s)
    ensures var t := Next(p, s, step);
            forall c, i :: c in t.coordinators && 0 <= i < |t.coordinators[c].todo| ==>
              TrueSnapshot(t.db, t.coordinators[c].todo[i])
  {
    var t := Next(p, s, step);
    StepKeepsTables(p, s, step);
    forall c, i | c in t.coordinators && 0 <= i < |t.coordinators[c].todo|
      ensures TrueSnapshot(t.db, t.coordinators[c].todo[i])
    {
      if step.ListStep? && step.coordinator == c {
        ListedRowsAreTrue(s.db, step.now);
      } else {
        TodoIsOld(p, s, step, c, i);
        SnapshotSurvives(s.db, t.db, t.coordinators[c].todo[i]);
      }
    }
  }

  predicate Coordinates(step: Step) {
    step.ListStep? || step.CountStep? || step.DecideStep? || step.CoordinatorCrash?
  }

  lemma CoordinatorsSame(p: RecoveryPolicy, s: Sys, step: Step)
    requires !Coordinates(step)
    ensures Next(p, s, step).coordinators == s.coordinators && Next(p, s, step).invalidEdges == s.invalidEdges
  {
    hide ApplyTo, CreateRun, ClaimNext, Paged, Terminated, Reserve, Settle;
    match step
    case ReserveStep(e, id, name, tool, arguments) => ReserveFrame(s, e, id, name, tool, arguments);
    case SettleStep(e) => if e in s.executors && s.executors[e].Called? { SettleFrame(s, e); }
    case _ =>
  }

  lemma DecideTodo(p: RecoveryPolicy, s: Sys, c: nat, now: Time)
    requires c in s.coordinators && s.coordinators[c].todo != [] && s.coordinators[c].receipts.Some?
    ensures var t := Decide(p, s, c, now);
            && (forall k :: k in t.coordinators && k != c ==> k in s.coordinators && t.coordinators[k] == s.coordinators[k])
            && (c in t.coordinators ==> t.coordinators[c].todo == s.coordinators[c].todo[1..])
  {
    hide ApplyTo, Classify, RecoveryMove, Terminated;
  }

  lemma TodoIsOld(p: RecoveryPolicy, s: Sys, step: Step, c: nat, i: nat)
    requires !(step.ListStep? && step.coordinator == c)
    requires c in Next(p, s, step).coordinators && i < |Next(p, s, step).coordinators[c].todo|
    ensures c in s.coordinators
    ensures Next(p, s, step).coordinators[c].todo[i] in s.coordinators[c].todo
  {
    if !Coordinates(step) {
      hide *;
      CoordinatorsSame(p, s, step);
    } else if step.DecideStep? {
      hide Decide;
      var d := step.coordinator;
      if d in s.coordinators && s.coordinators[d].todo != [] && s.coordinators[d].receipts.Some? {
        DecideTodo(p, s, d, step.now);
      }
    } else {
      hide RecoveryCandidates, ReceiptCount;
    }
  }

  lemma ApplyToFrame(db: Db, id: string, op: RunOp, o: string)
    ensures var after := ApplyTo(db, id, op).0;
            (o in after.runs <==> o in db.runs) && (o in db.runs && o != id ==> after.runs[o] == db.runs[o])
  {
    hide Apply;
  }

  lemma DecideEdges(p: RecoveryPolicy, s: Sys, c: nat, now: Time)
    requires c in s.coordinators && s.coordinators[c].todo != [] && s.coordinators[c].receipts.Some?
    ensures var run := s.coordinators[c].todo[0];
            var d := Classify(p, run, s.coordinators[c].receipts.value);
            (d.action == NoAction || ApplyTo(s.db, run.runId, RecoveryMove(run, d, now)).1 != Some(InvalidTransition))
            ==> Decide(p, s, c, now).invalidEdges == s.invalidEdges
  {
    hide ApplyTo, Classify, RecoveryMove, Terminated;
  }

  lemma DecideCountsRecovery(p: RecoveryPolicy, s: Sys, c: nat, now: Time)
    requires RequeuesOnce(p) && DbOk(s.db) && RecoveryInv(s)
    requires c in s.coordinators && s.coordinators[c].todo != [] && s.coordinators[c].receipts.Some?
    ensures var t := Decide(p, s, c, now);
            t.invalidEdges == 0 && AllCounted(t.db)
  {
    hide Decide, ApplyTo, Classify, RecoveryMove, RequeuesOnce, DbOk, RecoveryCounted;
    var run := s.coordinators[c].todo[0];
    var receipts := s.coordinators[c].receipts.value;
    DecideDb(p, s, c, now);
    DecideEdges(p, s, c, now);
    if Classify(p, run, receipts).action != NoAction {
      assert TrueSnapshot(s.db, run);
      RecoveryMoveCounted(p, s.db, run, receipts, now);
      forall id | id in Decide(p, s, c, now).db.runs ensures RecoveryCounted(Decide(p, s, c, now).db.runs[id]) {
        ApplyToFrame(s.db, run.runId, RecoveryMove(run, Classify(p, run, receipts), now), id);
      }
    }
  }

  /** The runs stay counted and no disallowed edge is attempted. */
  ghost predicate RunsCounted(s: Sys) {
    s.invalidEdges == 0 && AllCounted(s.db)
  }

  lemma DecideStepCounts(p: RecoveryPolicy, s: Sys, c: nat, now: Time)
    requires RequeuesOnce(p) && DbOk(s.db) && RecoveryInv(s)
    ensures RunsCounted(Next(p, s, DecideStep(c, now)))
  {
    hide Decide, RequeuesOnce, DbOk, RecoveryCounted;
    if c in s.coordinators && s.coordinators[c].todo != [] && s.coordinators[c].receipts.Some? {
      DecideCountsRecovery(p, s, c, now);
    }
  }

  lemma WriteCounts(p: RecoveryPolicy, s: Sys, step: Step)
    requires DbOk(s.db) && RecoveryInv(s) && LeavesRecoveryAlone(step) && WritesTables(step) && !step.DecideStep?
    ensures RunsCounted(Next(p, s, step))
  {
    hide DbOk, RecoveryCounted, CreateRun, ApplyTo, ClaimNext, Terminated;
    match step
    case CreateStep(id, digest, key, metadata, now) => CreateCountsRecovery(s.db, id, digest, key, metadata, now);
    case RunStep(id, op) => StepCountsRecovery(p, s.db, id, op);
    case ClaimStep(worker, seconds, now) => ClaimCountsRecovery(s.db, worker, seconds, now);
    case _ =>
  }

  lemma OthersCount(p: RecoveryPolicy, s: Sys, step: Step)
    requires RecoveryInv(s) && !WritesTables(step)
    ensures RunsCounted(Next(p, s, step))
  {
    OthersKeepTables(p, s, step);
    OthersEdges(p, s, step);
    hide Next, RecoveryCounted;
  }

  lemma OthersEdges(p: RecoveryPolicy, s: Sys, step: Step)
    requires !WritesTables(step)
    ensures Next(p, s, step).invalidEdges == s.invalidEdges
  {
    hide RecoveryCandidates, ReceiptCount;
    if !Coordinates(step) {
      hide *;
      CoordinatorsSame(p, s, step);
    }
  }

  lemma StepKeepsRecovery(p: RecoveryPolicy, s: Sys, step: Step)
    requires RequeuesOnce(p) && DbOk(s.db) && RecoveryInv(s) && LeavesRecoveryAlone(step)
    ensures RecoveryInv(Next(p, s, step))
  {
    hide Next, DbOk, TrueSnapshot, RecoveryCounted, RequeuesOnce, LeavesRecoveryAlone;
    SnapshotsSurvive(p, s, step);
    if step.DecideStep? {
      DecideStepCounts(p, s, step.coordinator, step.now);
    } else if WritesTables(step) {
      WriteCounts(p, s, step);
    } else {
      OthersCount(p, s, step);
    }
  }

  lemma {:induction false} ReachableRecovery(p: RecoveryPolicy, trace: seq<Sys>, steps: seq<Step>, n: nat)
    requires Behaviour(p, trace, steps) && n < |trace|
    requires RequeuesOnce(p) && forall i :: 0 <= i < |steps| ==> LeavesRecoveryAlone(steps[i])
    ensures RecoveryInv(trace[n])
  {
    hide Next;
    if n > 0 {
      ReachableRecovery(p, trace, steps, n - 1);
      ReachableTablesOk(p, trace, steps, n - 1);
      assert StepAt(p, trace, steps, n - 1);
      StepKeepsRecovery(p, trace[n - 1], steps[n - 1]);
    }
  }

  /** Bounded recovery, under any interleaving of coordinators, workers and cancellers and any
      crashes: the counter is the number of running -> queued edges and at most one, no run
      makes more than five moves, and no coordinator ever attempts a disallowed edge. */
  lemma RecoveryIsBounded(p: RecoveryPolicy, trace: seq<Sys>, steps: seq<Step>, n: nat, id: string)
    requires Behaviour(p, trace, steps) && n < |trace|
    requires RequeuesOnce(p) && forall i :: 0 <= i < |steps| ==> LeavesRecoveryAlone(steps[i])
    requires id in trace[n].db.runs
    ensures var r := trace[n].db.runs[id];
            r.row.recoveryAttempts == Requeues(r.log) <= 1 && r.row.version <= 5
    ensures trace[n].invalidEdges == 0
  {
    ReachableRecovery(p, trace, steps, n);
    ReachableTablesOk(p, trace, steps, n);
    LogLength(trace[n].db.runs[id].log);
  }

  // ---- one terminal event ----

  predicate AddsNoTerminalEvent(step: Step) {
    step.RunStep? && step.op.Append? ==> !step.op.terminal
  }

  ghost predicate Ended(r: Record, silent: bool) {
    && TerminalEvents(r.events) == (if Terminal(r.row.state) && !silent then 1 else 0)
    && (silent ==> Terminal(r.row.state))
  }

  ghost predicate EventsOk(db: Db, silent: set<string>) {
    silent <= db.runs.Keys && forall id :: id in db.runs ==> Ended(db.runs[id], id in silent)
  }

  lemma EndedStep(r: Record, op: RunOp, silent: bool)
    requires RecordOk(r) && Ended(r, silent) && Apply(r, op).Ok? && !(op.Append? && op.terminal)
    ensures var q := Apply(r, op).value;
            Ended(q, silent || (op.Transition? && !Terminal(r.row.state) && Terminal(q.row.state)))
  {
    TerminalEventsStep(r, op);
    HistoryAppendOnly(r, op);
  }

  lemma ApplyKeepsEvents(db: Db, silent: set<string>, id: string, op: RunOp)
    requires DbOk(db) && EventsOk(db, silent) && !(op.Append? && op.terminal)
    ensures var after := ApplyTo(db, id, op).0;
            EventsOk(after, silent + if op.Transition? then Terminated(db, after, id) else {})
  {
    hide Apply, RecordOk, Ended;
    if id in db.runs && Apply(db.runs[id], op).Ok? {
      EndedStep(db.runs[id], op, id in silent);
      ReplaceEnded(db, silent, id, ApplyTo(db, id, op).0.runs[id],
                   if op.Transition? then Terminated(db, ApplyTo(db, id, op).0, id) else {});
    }
  }

  lemma ReplaceEnded(db: Db, silent: set<string>, id: string, q: Record, more: set<string>)
    requires EventsOk(db, silent) && id in db.runs && more <= {id} && Ended(q, id in silent || more == {id})
    ensures EventsOk(db.(runs := db.runs[id := q]), silent + more)
  {
    hide Ended;
  }

  lemma DecideKeepsEvents(p: RecoveryPolicy, s: Sys, c: nat, now: Time)
    requires DbOk(s.db) && EventsOk(s.db, s.silent)
    requires c in s.coordinators && s.coordinators[c].todo != [] && s.coordinators[c].receipts.Some?
    ensures EventsOk(Decide(p, s, c, now).db, Decide(p, s, c, now).silent)
  {
    hide DbOk, EventsOk, Classify, ApplyTo, RecoveryMove, Terminated;
    var run := s.coordinators[c].todo[0];
    var d := Classify(p, run, s.coordinators[c].receipts.value);
    assert RecoveryMove(run, d, now).Transition? by { IsTransition(run, d, now); }
    ApplyKeepsEvents(s.db, s.silent, run.runId, RecoveryMove(run, d, now));
  }

  lemma IsTransition(run: Run, d: Decision, now: Time)
    ensures RecoveryMove(run, d, now).Transition?
  {
  }

  lemma CreateKeepsEvents(db: Db, silent: set<string>, id: string, digest: string, key: Option<string>,
                          metadata: Metadata, now: Time)
    requires EventsOk(db, silent)
    ensures EventsOk(CreateRun(db, id, digest, key, metadata, now).0, silent)
  {
    CreateRunInserts(db, id, digest, key, metadata, now);
    assert Ended(Fresh(id, Strip(digest), metadata, now), false);
  }

  lemma ClaimKeepsEvents(db: Db, silent: set<string>, worker: string, seconds: Time, now: Time)
    requires EventsOk(db, silent)
    ensures EventsOk(ClaimNext(db, worker, seconds, now).0, silent)
  {
  }

  lemma WriteKeepsEvents(p: RecoveryPolicy, s: Sys, step: Step)
    requires DbOk(s.db) && EventsOk(s.db, s.silent) && AddsNoTerminalEvent(step) && WritesTables(step)
    ensures EventsOk(Next(p, s, step).db, Next(p, s, step).silent)
  {
    hide DbOk, EventsOk, CreateRun, ApplyTo, ClaimNext, Decide, Terminated;
    match step
    case CreateStep(id, digest, key, metadata, now) => CreateKeepsEvents(s.db, s.silent, id, digest, key, metadata, now);
    case RunStep(id, op) => ApplyKeepsEvents(s.db, s.silent, id, op);
    case ClaimStep(worker, seconds, now) => ClaimKeepsEvents(s.db, s.silent, worker, seconds, now);
    case DecideStep(c, now) =>
      if c in s.coordinators && s.coordinators[c].todo != [] && s.coordinators[c].receipts.Some? {
        DecideKeepsEvents(p, s, c, now);
      }
    case _ =>
  }

  lemma SameEvents(s: Sys, t: Sys)
    requires EventsOk(s.db, s.silent) && t.db.runs == s.db.runs && t.silent == s.silent
    ensures EventsOk(t.db, t.silent)
  {
  }

  lemma StepKeepsEvents(p: RecoveryPolicy, s: Sys, step: Step)
    requires DbOk(s.db) && EventsOk(s.db, s.silent) && AddsNoTerminalEvent(step)
    ensures EventsOk(Next(p, s, step).db, Next(p, s, step).silent)
  {
    hide *;
    if WritesTables(step) {
      WriteKeepsEvents(p, s, step);
    } else {
      OthersKeepTables(p, s, step);
      SameEvents(s, Next(p, s, step));
    }
  }

  lemma {:induction false} ReachableEvents(p: RecoveryPolicy, trace: seq<Sys>, steps: seq<Step>, n: nat)
    requires Behaviour(p, trace, steps) && n < |trace|
    requires forall i :: 0 <= i < |steps| ==> AddsNoTerminalEvent(steps[i])
    ensures EventsOk(trace[n].db, trace[n].silent)
  {
    hide Next;
    if n > 0 {
      ReachableEvents(p, trace, steps, n - 1);
      ReachableTablesOk(p, trace, steps, n - 1);
      assert StepAt(p, trace, steps, n - 1);
      StepKeepsEvents(p, trace[n - 1], steps[n - 1]);
    }
  }

  /** If callers append no terminal event themselves, a run has a terminal event exactly when
      it is terminal and was not terminated by a plain transition, and then exactly one. */
  lemma OneTerminalEvent(p: RecoveryPolicy, trace: seq<Sys>, steps: seq<Step>, n: nat, id: string)
    requires Behaviour(p, trace, steps) && n < |trace|
    requires forall i :: 0 <= i < |steps| ==> AddsNoTerminalEvent(steps[i])
    requires id in trace[n].db.runs
    ensures var r := trace[n].db.runs[id];
            && TerminalEvents(r.events) <= 1
            && (TerminalEvents(r.events) == 1 <==> Terminal(r.row.state) && id !in trace[n].silent)
  {
    ReachableEvents(p, trace, steps, n);
  }

  /** A plain transition into a terminal state is the only way to end a run silently. */
  predicate EndsRunsWithEvents(step: Step) {
    !step.DecideStep? && (step.RunStep? && step.op.Transition? ==> !Terminal(step.op.next))
  }

  lemma TransitionReaches(r: Record, op: RunOp)
    requires op.Transition? && Apply(r, op).Ok?
    ensures Apply(r, op).value.row.state == op.next
  {
  }

  lemma StepNotSilent(p: RecoveryPolicy, s: Sys, step: Step)
    requires EndsRunsWithEvents(step)
    ensures Next(p, s, step).silent == s.silent
  {
    if step.RunStep? && step.op.Transition? {
      if step.runId in s.db.runs && Apply(s.db.runs[step.runId], step.op).Ok? {
        TransitionReaches(s.db.runs[step.runId], step.op);
      }
    } else if step.ReserveStep? {
      ReserveFrame(s, step.executor, step.runId, step.step, step.tool, step.arguments);
    } else if step.SettleStep? && step.executor in s.executors && s.executors[step.executor].Called? {
      SettleFrame(s, step.executor);
    }
  }

  lemma {:induction false} NothingSilent(p: RecoveryPolicy, trace: seq<Sys>, steps: seq<Step>, n: nat)
    requires Behaviour(p, trace, steps) && n < |trace|
    requires forall i :: 0 <= i < |steps| ==> EndsRunsWithEvents(steps[i])
    ensures trace[n].silent == {}
  {
    hide Next;
    if n > 0 {
      NothingSilent(p, trace, steps, n - 1);
      assert StepAt(p, trace, steps, n - 1);
      StepNotSilent(p, trace[n - 1], steps[n - 1]);
    }
  }

  /** Where only finalize_run and request_cancellation end runs, one terminal event means
      terminal and terminal means one terminal event. */
  lemma TerminalIffTerminalEvent(p: RecoveryPolicy, trace: seq<Sys>, steps: seq<Step>, n: nat, id: string)
    requires Behaviour(p, trace, steps) && n < |trace|
    requires forall i :: 0 <= i < |steps| ==> AddsNoTerminalEvent(steps[i]) && EndsRunsWithEvents(steps[i])
    requires id in trace[n].db.runs
    ensures var r := trace[n].db.runs[id];
            TerminalEvents(r.events) == if Terminal(r.row.state) then 1 else 0
  {
    OneTerminalEvent(p, trace, steps, n, id);
    NothingSilent(p, trace, steps, n);
  }

  // ---- event replay ----

  ghost predicate ReaderInv(s: Sys) {
    forall k :: k in s.readers ==>
      var reader := s.readers[k];
      reader.runId in s.db.runs && ReaderOk(reader, s.db.runs[reader.runId].events)
  }

  /** A reader holds a prefix of its run's events and points behind it. */
  ghost predicate ReaderOk(reader: Reader, events: seq<Event>) {
    reader.cursor == |reader.got| && reader.got <= events
  }

  lemma PageKeepsReader(reader: Reader, events: seq<Event>, limit: nat)
    requires Numbered(events) && ReaderOk(reader, events) && limit >= 1
    ensures Paged(reader, events, limit).runId == reader.runId
    ensures ReaderOk(Paged(reader, events, limit), events)
    ensures EventsAfter(events, reader.cursor, limit) == [] <==> reader.got == events
  {
    PageIsSlice(events, reader.cursor, limit);
    hide EventsAfter;
  }

  lemma ReadersGrow(t: Sys, s: Sys)
    requires ReaderInv(s) && Evolves(s.db, t.db) && t.readers == s.readers
    ensures ReaderInv(t)
  {
  }

  lemma ReadersUntouched(p: RecoveryPolicy, s: Sys, step: Step)
    requires !step.PageStep? && !step.OpenReader?
    ensures Next(p, s, step).readers == s.readers
  {
    hide ApplyTo, CreateRun, ClaimNext, Terminated, RecoveryCandidates, ReceiptCount, Reserve, Settle, Decide;
    match step
    case DecideStep(c, now) =>
      if c in s.coordinators && s.coordinators[c].todo != [] && s.coordinators[c].receipts.Some? {
        DecideReaders(p, s, c, now);
      }
    case ReserveStep(e, id, name, tool, arguments) => ReserveFrame(s, e, id, name, tool, arguments);
    case SettleStep(e) => if e in s.executors && s.executors[e].Called? { SettleFrame(s, e); }
    case _ =>
  }

  lemma DecideReaders(p: RecoveryPolicy, s: Sys, c: nat, now: Time)
    requires c in s.coordinators && s.coordinators[c].todo != [] && s.coordinators[c].receipts.Some?
    ensures Decide(p, s, c, now).readers == s.readers
  {
  }

  lemma StepKeepsReaders(p: RecoveryPolicy, s: Sys, step: Step)
    requires DbOk(s.db) && ReaderInv(s)
    ensures ReaderInv(Next(p, s, step))
  {
    hide *;
    match step
    case PageStep(k, limit) => PageKeepsReaders(p, s, k, limit);
    case OpenReader(k, id) => OpenKeepsReaders(p, s, k, id);
    case _ => OthersKeepReaders(p, s, step);
  }

  lemma PageKeepsReaders(p: RecoveryPolicy, s: Sys, k: nat, limit: nat)
    requires DbOk(s.db) && ReaderInv(s)
    ensures ReaderInv(Next(p, s, PageStep(k, limit)))
  {
    if k in s.readers && 1 <= limit <= 10000 {
      var reader := s.readers[k];
      assert reader.runId in s.db.runs && RecordOk(s.db.runs[reader.runId]);
      hide DbOk, Numbered, Paged, ReaderOk, Chain, RowMatchesLog, LeaseOk;
      PageKeepsReader(reader, s.db.runs[reader.runId].events, limit);
    }
  }

  lemma OpenKeepsReaders(p: RecoveryPolicy, s: Sys, k: nat, id: string)
    requires ReaderInv(s)
    ensures ReaderInv(Next(p, s, OpenReader(k, id)))
  {
  }

  lemma OthersKeepReaders(p: RecoveryPolicy, s: Sys, step: Step)
    requires DbOk(s.db) && ReaderInv(s) && !step.PageStep? && !step.OpenReader?
    ensures ReaderInv(Next(p, s, step))
  {
    hide *;
    StepKeepsTables(p, s, step);
    ReadersUntouched(p, s, step);
    ReadersGrow(Next(p, s, step), s);
  }

  lemma {:induction false} ReachableReaders(p: RecoveryPolicy, trace: seq<Sys>, steps: seq<Step>, n: nat)
    requires Behaviour(p, trace, steps) && n < |trace|
    ensures ReaderInv(trace[n])
  {
    hide Next;
    if n > 0 {
      ReachableReaders(p, trace, steps, n - 1);
      ReachableTablesOk(p, trace, steps, n - 1);
      assert StepAt(p, trace, steps, n - 1);
      StepKeepsReaders(p, trace[n - 1], steps[n - 1]);
    }
  }

  /** Replay is exact: event numbers are 1..n, and a reader that pages from its last seen
      number with any limits, however the pages interleave with appends, has received a
      prefix of the log without loss or repetition; an empty page means it has all of it. */
  lemma ReplayIsExact(p: RecoveryPolicy, trace: seq<Sys>, steps: seq<Step>, n: nat, k: nat, limit: nat)
    requires Behaviour(p, trace, steps) && n < |trace|
    requires k in trace[n].readers && 1 <= limit <= 10000
    ensures var reader := trace[n].readers[k];
            && reader.runId in trace[n].db.runs
            && var events := trace[n].db.runs[reader.runId].events;
               && Numbered(events) && reader.got <= events && reader.cursor == |reader.got|
               && (EventsAfter(events, reader.cursor, limit) == [] <==> reader.got == events)
  {
    ReachableReaders(p, trace, steps, n);
    ReachableTablesOk(p, trace, steps, n);
    var s := trace[n];
    PageKeepsReader(s.readers[k], s.db.runs[s.readers[k].runId].events, limit);
  }

  // ---- idempotent creation ----

  lemma KeyBound(db: Db, first: Step)
    requires DbOk(db) && first.CreateStep? && first.key.Some?
    requires CreateRun(db, first.runId, first.digest, first.key, first.metadata, first.now).1.Ok?
    ensures var (after, made) := CreateRun(db, first.runId, first.digest, first.key, first.metadata, first.now);
            && Strip(first.key.value) in after.keys && Identifier(first.key.value)
            && after.keys[Strip(first.key.value)] == KeyRow(Strip(first.digest), made.value.0.runId)
            && made.value.0.runId in after.runs
  {
  }

  /** A creation key stays bound to its first request: at any later time, replaying it returns
      that run and creates nothing, and a request with another digest is refused. */
  lemma CreationIsIdempotent(p: RecoveryPolicy, trace: seq<Sys>, steps: seq<Step>, m: nat, n: nat, again: Step)
    requires Behaviour(p, trace, steps) && m < n < |trace|
    requires steps[m].CreateStep? && steps[m].key.Some?
    requires CreateRun(trace[m].db, steps[m].runId, steps[m].digest, steps[m].key, steps[m].metadata, steps[m].now).1.Ok?
    requires again.CreateStep? && again.key == steps[m].key && Identifier(again.runId) && !Blank(again.digest)
    ensures var made := CreateRun(trace[m].db, steps[m].runId, steps[m].digest, steps[m].key,
                                  steps[m].metadata, steps[m].now).1.value.0.runId;
            var db := trace[n].db;
            && made in db.runs
            && CreateRun(db, again.runId, again.digest, again.key, again.metadata, again.now)
               == (db, if Strip(again.digest) != Strip(steps[m].digest) then Err(IdempotencyConflict)
                       else Ok((db.runs[made].row, false)))
  {
    hide CreateRun, DbOk, Evolves;
    ReachableTablesOk(p, trace, steps, m);
    assert StepAt(p, trace, steps, m);
    KeyBound(trace[m].db, steps[m]);
    hide *;
    HistoryOnlyGrows(p, trace, steps, m + 1, n);
    KeyReplays(trace[m + 1].db, trace[n].db, Strip(steps[m].key.value),
               KeyRow(Strip(steps[m].digest), CreateRun(trace[m].db, steps[m].runId, steps[m].digest, steps[m].key,
                                                        steps[m].metadata, steps[m].now).1.value.0.runId), again);
  }

  lemma KeyReplays(a: Db, b: Db, key: string, row: KeyRow, again: Step)
    requires Evolves(a, b) && key in a.keys && a.keys[key] == row && row.runId in a.runs
    requires again.CreateStep? && again.key.Some? && Identifier(again.key.value) && Strip(again.key.value) == key
    requires Identifier(again.runId) && !Blank(again.digest)
    ensures row.runId in b.runs
    ensures CreateRun(b, again.runId, again.digest, again.key, again.metadata, again.now)
            == (b, if Strip(again.digest) != row.digest then Err(IdempotencyConflict)
                   else Ok((b.runs[row.runId].row, false)))
  {
    hide Strip, Identifier;
  }
}
