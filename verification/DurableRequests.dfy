// What the requests on the tables promise, said of the rows they read and write: creation,
// claiming, recovery listing, action receipts, and the decisions of a recovery.

module DurableRequests {
  import opened Common
  import opened Ordering
  import opened DurableRuns
  import opened DurableTables
  import opened DurableSystem
  import opened DurableRecovery

  // ---- creation ----

  /** Run ids and keys: 1 to 200 characters without white space, after what surrounds them. */
  lemma IdentifierIff(s: string)
    ensures Identifier(s) <==> 1 <= |Strip(s)| <= 200 && forall c :: c in Strip(s) ==> !IsSpace(c)
  {
    hide Strip, IsSpace;
  }

  /** A request that is well formed and not a replay makes exactly one run, queued at version 0,
      and binds its key; a replay answers with the bound run, and every refusal changes nothing. */
  lemma CreateCases(db: Db, runId: string, digest: string, key: Option<string>, metadata: Metadata, now: Time)
    ensures var (after, r) := CreateRun(db, runId, digest, key, metadata, now);
            var formed := Identifier(runId) && Strip(digest) != "" && (key.Some? ==> Identifier(key.value));
            var bound := key.Some? && Strip(key.value) in db.keys;
            && (r == Err(ValueError) <==> !formed)
            && (formed && bound ==>
                  var row := db.keys[Strip(key.value)];
                  && after == db
                  && (r == Err(IdempotencyConflict) <==> row.digest != Strip(digest))
                  && (r.Ok? <==> row.digest == Strip(digest) && row.runId in db.runs)
                  && (r.Ok? ==> r.value == (db.runs[row.runId].row, false)))
            && (formed && !bound ==>
                  && (r == Err(RunAlreadyExists) <==> runId in db.runs)
                  && (r.Ok? <==> runId !in db.runs))
            && (r.Err? ==> after == db)
            && (formed && !bound && r.Ok? ==>
                  var row := Run(runId, Strip(digest), Queued, 0, 0, now, now, None, metadata);
                  && r.value == (row, true)
                  && after.runs == db.runs[runId := Record(row, [LogRow(None, Queued, 0, "created", "service", now)], None, [])]
                  && after.receipts == db.receipts
                  && after.keys == if key.Some? then db.keys[Strip(key.value) := KeyRow(Strip(digest), runId)] else db.keys)
  {
  }

  // ---- operations on a run that does not exist ----

  /** What a caller gets wrong is reported before the run is looked up; after that a transition
      finds nothing to compare with, a release finds nothing to release, and the rest no run. */
  lemma MissingRunIs(db: Db, id: string, op: RunOp)
    requires id !in db.runs
    ensures var (after, error) := ApplyTo(db, id, op);
            && after == db
            && (error == Some(ValueError) <==> forall r :: Apply(r, op) == Err(ValueError))
            && (error == Some(InvalidTransition) <==> op.Transition? && forall r :: Apply(r, op) == Err(InvalidTransition))
            && (error !in {Some(ValueError), Some(InvalidTransition)} ==>
                  error == if op.Transition? then Some(CompareAndSwap) else if op.Release? then None else Some(RunNotFound))
  {
    var r := Fresh("", "", map[], 0.0);
    hide Strip;
    assert Apply(r, op) == Apply(r, op);
  }

  // ---- claiming and listing: the oldest first ----

  /** The older row, or of two equally old ones the one with the smaller id. */
  predicate ComesFirst(at: Time, id: string, otherAt: Time, other: string) {
    at < otherAt || (at == otherAt && Before(id, other))
  }

  /** The run claimed is the oldest queued one; nothing is claimed iff nothing is queued. */
  lemma ClaimsOldest(db: Db, worker: string, seconds: Time, now: Time)
    ensures var (after, r) := ClaimNext(db, worker, seconds, now);
            && (r == Err(ValueError) <==> Strip(worker) == "" || seconds <= 0.0)
            && (r.Err? ==> r.error == ValueError)
            && (r == Ok(None) <==> Strip(worker) != "" && seconds > 0.0 && forall o :: o in db.runs ==> db.runs[o].row.state != Queued)
            && (!(r.Ok? && r.value.Some?) ==> after == db)
            && (r.Ok? && r.value.Some? ==>
                  var id := r.value.value;
                  && id in db.runs && db.runs[id].row.state == Queued
                  && after == db.(runs := db.runs[id := Claimed(db.runs[id], Strip(worker), seconds, now)])
                  && forall o :: o in db.runs && db.runs[o].row.state == Queued && o != id ==>
                       ComesFirst(db.runs[id].row.createdAt, id, db.runs[o].row.createdAt, o))
  {
    hide Strip, Claimed;
    if !(Blank(worker) || seconds <= 0.0) {
      if QueuedIds(db) == {} {
        forall o | o in db.runs ensures db.runs[o].row.state != Queued { assert o !in QueuedIds(db); }
      } else {
        var id := Earliest(CreatedAt(db), QueuedIds(db));
        assert id in QueuedIds(db);
        forall o | o in db.runs && db.runs[o].row.state == Queued && o != id
          ensures ComesFirst(db.runs[id].row.createdAt, id, db.runs[o].row.createdAt, o)
        {
          assert o in QueuedIds(db);
        }
      }
    }
  }

  lemma {:induction false} InOrderRises(times: map<string, Time>, ids: set<string>, i: nat, j: nat)
    requires ids <= times.Keys && i < j < |InOrder(times, ids)|
    ensures var s := InOrder(times, ids); ComesFirst(times[s[i]], s[i], times[s[j]], s[j])
    decreases |ids|
  {
    var m := Earliest(times, ids);
    var rest := InOrder(times, ids - {m});
    assert InOrder(times, ids) == [m] + rest;
    if i > 0 {
      InOrderRises(times, ids - {m}, i - 1, j - 1);
    } else {
      assert rest[j - 1] in ids - {m};
    }
  }

  /** The runs listed for recovery are those running or cancelling whose lease is missing or has
      run out, each once, and those untouched for longest come first. */
  lemma CandidatesAre(db: Db, now: Time)
    requires forall id :: id in db.runs ==> db.runs[id].row.runId == id
    ensures var rows := RecoveryCandidates(db, now);
            && (forall i :: 0 <= i < |rows| ==>
                  && rows[i].runId in db.runs && rows[i] == db.runs[rows[i].runId].row
                  && NeedsRecovery(db.runs[rows[i].runId], now))
            && (forall id :: id in db.runs && NeedsRecovery(db.runs[id], now) ==> IsListed(rows, id))
            && (forall i, j :: 0 <= i < j < |rows| ==>
                  ComesFirst(rows[i].updatedAt, rows[i].runId, rows[j].updatedAt, rows[j].runId))
  {
    var times, ids := UpdatedAt(db), AbandonedIds(db, now);
    var order, rows := InOrder(times, ids), RecoveryCandidates(db, now);
    InOrderDistinct(times, ids);
    forall i | 0 <= i < |rows| ensures rows[i].runId == order[i] && NeedsRecovery(db.runs[order[i]], now) {
      assert order[i] in ids;
    }
    forall id | id in db.runs && NeedsRecovery(db.runs[id], now) ensures IsListed(rows, id) {
      assert id in ids;
      var i :| 0 <= i < |order| && order[i] == id;
      assert rows[i].runId == id;
    }
    forall i, j | 0 <= i < j < |rows|
      ensures ComesFirst(rows[i].updatedAt, rows[i].runId, rows[j].updatedAt, rows[j].runId)
    {
      InOrderRises(times, ids, i, j);
    }
  }

  predicate NeedsRecovery(r: Record, now: Time) {
    (r.row.state == Running || r.row.state == Cancelling) && (r.lease.Some? ==> r.lease.value.expiresAt <= now)
  }

  ghost predicate IsListed(rows: seq<Run>, id: string) {
    exists i :: 0 <= i < |rows| && rows[i].runId == id
  }

  // ---- action receipts ----

  /** Two calls are one action iff they agree in run, step and tool, up to surrounding white
      space, and in their arguments; a call with a blank part is no action. */
  lemma ActionKeyIff(run1: string, step1: string, tool1: string, arguments1: string,
                     run2: string, step2: string, tool2: string, arguments2: string)
    ensures var (a, b) := (MakeActionKey(run1, step1, tool1, arguments1), MakeActionKey(run2, step2, tool2, arguments2));
            && (a.Some? <==> Strip(run1) != "" && Strip(step1) != "" && Strip(tool1) != "")
            && (a.Some? && b.Some? ==>
                  (a == b <==> Strip(run1) == Strip(run2) && Strip(step1) == Strip(step2) && Strip(tool1) == Strip(tool2)
                               && arguments1 == arguments2))
  {
  }

  /** Reserving: the first call of an action makes a pending receipt of its run, every later one
      is told what is stored; nothing else changes. */
  lemma ReserveEffect(db: Db, id: string, step: string, tool: string, arguments: string)
    ensures var (after, r) := ReserveAction(db, id, step, tool, arguments);
            var key := MakeActionKey(id, step, tool, arguments);
            && (r == Err(RunNotFound) <==> id !in db.runs)
            && (r == Err(ValueError) <==> id in db.runs && key.None?)
            && (r.Ok? <==> id in db.runs && key.Some?)
            && after == db.(receipts := after.receipts)
            && (r.Err? ==> after == db)
            && (r.Ok? && key.value in db.receipts ==>
                  && after == db && !r.value.created && r.value.key == key.value
                  && r.value.status == db.receipts[key.value].status && r.value.outcome == db.receipts[key.value].outcome)
            && (r.Ok? && key.value !in db.receipts ==>
                  && r.value.created && r.value.key == key.value
                  && after.receipts == db.receipts[key.value := Receipt(id, ActionPending, None)])
  {
    hide MakeActionKey;
  }

  /** Completing: a pending receipt takes the outcome, a completed one keeps its own and answers
      with it, a failed or unknown one refuses. */
  lemma CompleteEffect(db: Db, key: ActionKey, outcome: Json)
    ensures var (after, r) := CompleteAction(db, key, outcome);
            && (r == Err(UnknownReceipt) <==> key !in db.receipts)
            && (r == Err(NotPending) <==> key in db.receipts && db.receipts[key].status == ActionFailed)
            && (key in db.receipts && db.receipts[key].status == ActionCompleted ==> r == Ok(db.receipts[key].outcome))
            && (if key in db.receipts && db.receipts[key].status == ActionPending
                then && r == Ok(Some(outcome))
                     && after == db.(receipts := db.receipts[key := Receipt(db.receipts[key].runId, ActionCompleted, Some(outcome))])
                else after == db)
  {
  }

  /** Failing: only a pending receipt fails, and it keeps the type and the message, trimmed and
      cut at 120 and 500 characters. */
  lemma FailEffect(db: Db, key: ActionKey, errorType: string, message: string)
    ensures var (after, error) := FailAction(db, key, errorType, message);
            var named := Strip(errorType) != "" && Strip(message) != "";
            var pending := key in db.receipts && db.receipts[key].status == ActionPending;
            && (error == Some(ValueError) <==> !named)
            && (error == Some(NotPending) <==> named && !pending)
            && (error.None? <==> named && pending)
            && (error.Some? ==> after == db)
            && (error.None? ==>
                  && after == db.(receipts := db.receipts[key := after.receipts[key]])
                  && after.receipts[key].status == ActionFailed && after.receipts[key].runId == db.receipts[key].runId
                  && Explains(after.receipts[key].outcome, Strip(errorType), Strip(message)))
  {
  }

  predicate Explains(outcome: Option<Json>, errorType: string, message: string) {
    && outcome.Some? && outcome.value.Object? && outcome.value.fields.Keys == {Named("error_type"), Message}
    && CutAt(outcome.value.fields[Named("error_type")], errorType, 120) && CutAt(outcome.value.fields[Message], message, 500)
  }

  predicate CutAt(j: Json, text: string, limit: nat) {
    j.Text? && j.text <= text && |j.text| == if |text| <= limit then |text| else limit
  }

  /** The callback runs iff its action is new: an action with other arguments, or another step
      or tool, is not held back by one already done. */
  lemma ExecuteCalls(db: Db, id: string, step: string, tool: string, arguments: string, callback: CallbackResult)
    ensures var (after, r, called) := Executed(db, id, step, tool, arguments, callback);
            var key := MakeActionKey(id, step, tool, arguments);
            && (called <==> id in db.runs && key.Some? && key.value !in db.receipts)
            && (called && callback.Returned? ==>
                  && r == Ok(callback.outcome)
                  && after.receipts == db.receipts[key.value := Receipt(id, ActionCompleted, Some(callback.outcome))])
            && (called && callback.Threw? ==>
                  if Strip(callback.errorType) == "" || Strip(callback.message) == "" then
                    r == Err(ValueError) && after.receipts == db.receipts[key.value := Receipt(id, ActionPending, None)]
                  else
                    && r == Err(CallbackRaised) && key.value in after.receipts
                    && after.receipts[key.value].status == ActionFailed
                    && Explains(after.receipts[key.value].outcome, Strip(callback.errorType), Strip(callback.message)))
            && (!called ==> after == db)
            && (!called && r.Ok? ==>
                  && key.Some? && key.value in db.receipts && db.receipts[key.value].status == ActionCompleted
                  && db.receipts[key.value].outcome == Some(r.value))
  {
    ReserveEffect(db, id, step, tool, arguments);
    var key := MakeActionKey(id, step, tool, arguments);
    if key.Some? && callback.Threw? {
      FailEffect(ReserveAction(db, id, step, tool, arguments).0, key.value, callback.errorType, callback.message);
    }
    hide Strip, FailureOutcome, FailAction, ReserveAction, MakeActionKey, Explains;
  }

  /** A second execution with other arguments runs its callback. */
  lemma OtherArgumentsRun(db: Db, id: string, step: string, tool: string, arguments: string, other: string,
                          first: CallbackResult, second: CallbackResult)
    requires Executed(db, id, step, tool, arguments, first).2 && other != arguments
    requires var key := MakeActionKey(id, step, tool, other); key.Some? && key.value !in db.receipts
    ensures Executed(Executed(db, id, step, tool, arguments, first).0, id, step, tool, other, second).2
  {
    ExecuteCalls(db, id, step, tool, arguments, first);
    ActionKeyIff(id, step, tool, arguments, id, step, tool, other);
    ExecuteTouches(db, id, step, tool, arguments, first);
    var after := Executed(db, id, step, tool, arguments, first).0;
    hide Executed, MakeActionKey;
    ExecuteCalls(after, id, step, tool, other, second);
  }

  /** An execution touches no receipt but its own, and no run. */
  lemma ExecuteTouches(db: Db, id: string, step: string, tool: string, arguments: string, callback: CallbackResult)
    ensures var after := Executed(db, id, step, tool, arguments, callback).0;
            && after.runs == db.runs && after.keys == db.keys
            && forall k :: k in after.receipts && Some(k) != MakeActionKey(id, step, tool, arguments) ==>
                 k in db.receipts && after.receipts[k] == db.receipts[k]
  {
    hide Strip, FailureOutcome;
  }

  // ---- recovery decisions ----

  /** What the default policy decides, by cause. */
  lemma DefaultDecides(run: Run, receipts: nat)
    ensures var d := DefaultClassify(run, receipts);
            && d.Decided? && d.decision.policyId == "default-v1"
            && (d.decision.action == Requeue <==> run.state == Running && receipts == 0 && run.recoveryAttempts == 0)
            && (d.decision.action == NoAction <==> run.state != Running && run.state != Cancelling)
            && (d.decision.reason == "external_action_receipt_present" <==> run.state == Running && receipts > 0)
            && (d.decision.reason == "automatic_recovery_budget_exhausted" <==>
                  run.state == Running && receipts == 0 && run.recoveryAttempts > 0)
            && (d.decision.reason == "cancellation_outcome_uncertain" <==> run.state == Cancelling)
            && (d.decision.reason == "already_terminal" <==> run.state !in {Queued, Running, Cancelling})
            && (d.decision.reason == "state_not_reconciled" <==> run.state == Queued)
            && (d.decision.reason == "no_external_action_and_first_recovery" <==> d.decision.action == Requeue)
  {
    ReasonsDiffer();
  }

  lemma ReasonsDiffer()
    ensures |"already_terminal"| == 16 && |"external_action_receipt_present"| == 31
    ensures |"no_external_action_and_first_recovery"| == 37 && |"automatic_recovery_budget_exhausted"| == 35
    ensures |"cancellation_outcome_uncertain"| == 30 && |"state_not_reconciled"| == 20
  {
  }

  /** A policy that raises leads to manual recovery, under its own id and the exception's name,
      whether the coordinator or the registry catches it; one that decides is not second-guessed. */
  lemma RaisingIsManual(p: RecoveryPolicy, run: Run, receipts: nat)
    ensures var (d, g) := (Classify(p, run, receipts), Classify(Guarded(p), run, receipts));
            match p.classify(run, receipts)
            case Decided(own) => d == own && g == own
            case Raised(e, _) => d == Decision(Manual, "policy_error:" + e, p.id) && g == Decision(Manual, "plugin_policy_error:" + e, p.id)
  {
  }

  /** The move of a recovery is signed by the policy and explained by its decision. */
  lemma RecoveryEntry(p: RecoveryPolicy, db: Db, id: string, now: Time)
    requires Decisive(p) && id in db.runs && db.runs[id].row.state in {Running, Cancelling} && db.runs[id].row.runId == id
    ensures var (after, item) := ReconcileOne(p, db, db.runs[id].row, now);
            var (r, d) := (db.runs[id], Classify(p, db.runs[id].row, ReceiptCount(db, id)));
            && item == Ok(Item(id, r.row.state, if d.action == Requeue then Queued else RecoveryRequired, d.reason, d.policyId, true))
            && id in after.runs
            && after.runs[id].log == r.log + [LogRow(Some(r.row.state), item.value.next, r.row.version + 1,
                                                     Strip(d.reason), Strip("recovery:" + d.policyId), now)]
            && after.runs[id].row.updatedAt == now && after.runs[id].events == r.events
  {
    var r, d := db.runs[id], Classify(p, db.runs[id].row, ReceiptCount(db, id));
    SettlesOne(p, db, id, now);
    NotBlank("recovery:" + d.policyId);
    hide Classify, Strip, Decisive, ReceiptCount;
  }

  /** A run that moved on since it was listed is left alone and reported as unchanged. */
  lemma LostRaceIsReported(p: RecoveryPolicy, db: Db, run: Run, now: Time)
    requires var d := Classify(p, run, ReceiptCount(db, run.runId));
             && d.action != NoAction && Strip(d.reason) != "" && (d.action == Requeue ==> run.state == Running)
    requires run.state in {Running, Cancelling} && run.runId in db.runs
    requires db.runs[run.runId].row.state != run.state || db.runs[run.runId].row.version != run.version
    ensures var (after, item) := ReconcileOne(p, db, run, now);
            && after == db && item.Ok? && !item.value.changed && item.value.runId == run.runId
            && item.value.previous == item.value.next == run.state && item.value.reason == "concurrent_reconciliation"
  {
    NotBlank("recovery:" + Classify(p, run, ReceiptCount(db, run.runId)).policyId);
    hide Classify, Strip, ReceiptCount;
  }
}
