// The durable service as a system of concurrent actors. Callers, workers, cancellers,
// recovery coordinators, action executors and event readers interleave; every store method
// is one atomic step, while a reconciliation, an action execution and a paged replay span
// several steps and may crash between any two of them.

module DurableSystem {
  import opened Common
  import opened DurableRuns
  import opened DurableHistory
  import opened DurableTables

  // ---- recovery policies ----

  datatype RecoveryAction = NoAction | Requeue | Manual

  datatype Decision = Decision(action: RecoveryAction, reason: string, policyId: string)

  /** What a policy's classify does: it decides, or it raises an exception of some type. */
  datatype Verdict = Decided(decision: Decision) | Raised(errorType: string, message: string)

  datatype RecoveryPolicy = RecoveryPolicy(id: string, classify: (Run, nat) -> Verdict)

  function DefaultClassify(run: Run, receipts: nat): Verdict {
    Decided(
      if Terminal(run.state) then Decision(NoAction, "already_terminal", "default-v1")
      else if run.state == Running then
        if receipts != 0 then Decision(Manual, "external_action_receipt_present", "default-v1")
        else if run.recoveryAttempts == 0 then
          Decision(Requeue, "no_external_action_and_first_recovery", "default-v1")
        else Decision(Manual, "automatic_recovery_budget_exhausted", "default-v1")
      else if run.state == Cancelling then
        Decision(Manual, "cancellation_outcome_uncertain", "default-v1")
      else Decision(NoAction, "state_not_reconciled", "default-v1"))
  }

  /** RecoveryPolicyRegistry: the active policy, failing closed to manual when it raises. */
  function Guarded(p: RecoveryPolicy): RecoveryPolicy {
    RecoveryPolicy("registry:" + p.id, (run: Run, receipts: nat) =>
      match p.classify(run, receipts)
      case Decided(d) => Decided(d)
      case Raised(e, _) => Decided(Decision(Manual, "plugin_policy_error:" + e, p.id)))
  }

  /** The coordinator's own guard around a policy. */
  function Classify(p: RecoveryPolicy, run: Run, receipts: nat): Decision {
    match p.classify(run, receipts)
    case Decided(d) => d
    case Raised(e, _) => Decision(Manual, "policy_error:" + e, p.id)
  }

  /** Such a policy requeues only a running run that was never recovered before. */
  ghost predicate RequeuesOnce(p: RecoveryPolicy) {
    forall run, n :: Classify(p, run, n).action == Requeue ==> run.state == Running && run.recoveryAttempts == 0
  }

  lemma DefaultRequeuesOnce(id: string)
    ensures RequeuesOnce(RecoveryPolicy(id, DefaultClassify))
  {
  }

  /** Wrapping a policy in the registry adds no requeue: whatever raises becomes manual. */
  lemma GuardedRequeuesOnce(p: RecoveryPolicy)
    requires RequeuesOnce(p)
    ensures RequeuesOnce(Guarded(p))
  {
    forall run, n | Classify(Guarded(p), run, n).action == Requeue
      ensures run.state == Running && run.recoveryAttempts == 0
    {
      assert Classify(p, run, n).action == Requeue;
    }
  }

  // ---- actors ----

  /** A reconciliation under way: the listed rows still to handle, and the receipt count read
      for the first of them. */
  datatype Coordinator = Coordinator(todo: seq<Run>, receipts: Option<nat>)

  datatype CallbackResult = Returned(outcome: Json) | Threw(errorType: string, message: string)

  datatype Executor = Reserved(key: ActionKey) | Called(key: ActionKey, result: CallbackResult)

  datatype Reader = Reader(runId: string, cursor: nat, got: seq<Event>)

  datatype Sys = Sys(
    db: Db,
    coordinators: map<nat, Coordinator>,
    executors: map<nat, Executor>,
    readers: map<nat, Reader>,
    calls: map<ActionKey, nat>,           // callback invocations so far
    returned: set<(ActionKey, Json)>,      // successful returns of execute
    invalidEdges: nat,                    // disallowed edges the coordinators attempted
    silent: set<string>)                  // runs terminated by a plain transition, which writes no event

  const Start := Sys(Db(map[], map[], map[]), map[], map[], map[], map[], {}, 0, {})

  datatype Step =
    | CreateStep(runId: string, digest: string, key: Option<string>, metadata: Metadata, now: Time)
    | RunStep(runId: string, op: RunOp)
    | ClaimStep(worker: string, seconds: Time, now: Time)
    | ListStep(coordinator: nat, now: Time)
    | CountStep(coordinator: nat)
    | DecideStep(coordinator: nat, now: Time)
    | CoordinatorCrash(coordinator: nat)
    | ReserveStep(executor: nat, runId: string, step: string, tool: string, arguments: string)
    | CallStep(executor: nat, result: CallbackResult)
    | SettleStep(executor: nat)
    | ExecutorCrash(executor: nat)
    | OpenReader(reader: nat, runId: string)
    | PageStep(reader: nat, limit: nat)

  function RecoveryMove(run: Run, d: Decision, now: Time): RunOp {
    Transition(run.state, run.version, if d.action == Requeue then Queued else RecoveryRequired,
               d.reason, "recovery:" + d.policyId, now, d.action == Requeue)
  }

  function Terminated(a: Db, b: Db, id: string): set<string> {
    if id in a.runs && id in b.runs && !Terminal(a.runs[id].row.state) && Terminal(b.runs[id].row.state)
    then {id} else {}
  }

  /** The first row of a reconciliation: classified on the listed snapshot, then moved by a
      compare-and-swap that may fail. Any other error ends the reconciliation. */
  function Decide(p: RecoveryPolicy, s: Sys, c: nat, now: Time): Sys
    requires c in s.coordinators && s.coordinators[c].todo != [] && s.coordinators[c].receipts.Some?
  {
    var run := s.coordinators[c].todo[0];
    var rest := Coordinator(s.coordinators[c].todo[1..], None);
    var d := Classify(p, run, s.coordinators[c].receipts.value);
    if d.action == NoAction then s.(coordinators := s.coordinators[c := rest])
    else
      var (after, error) := ApplyTo(s.db, run.runId, RecoveryMove(run, d, now));
      match error
      case None =>
        s.(db := after, coordinators := s.coordinators[c := rest],
           silent := s.silent + Terminated(s.db, after, run.runId))
      case Some(CompareAndSwap) => s.(coordinators := s.coordinators[c := rest])
      case Some(e) =>
        s.(coordinators := s.coordinators - {c},
           invalidEdges := s.invalidEdges + if e == InvalidTransition then 1 else 0)
  }

  /** A reader after its next page. */
  function Paged(reader: Reader, events: seq<Event>, limit: nat): Reader {
    var page := EventsAfter(events, reader.cursor, limit);
    Reader(reader.runId, if page == [] then reader.cursor else page[|page| - 1].sequence, reader.got + page)
  }

  function CallCount(s: Sys, key: ActionKey): nat {
    if key in s.calls then s.calls[key] else 0
  }

  function Reserve(s: Sys, e: nat, runId: string, step: string, tool: string, arguments: string): Sys {
    var (after, result) := ReserveAction(s.db, runId, step, tool, arguments);
    match result
    case Err(_) => s
    case Ok(r) =>
      if r.created then s.(db := after, executors := s.executors[e := Reserved(r.key)])
      else if r.status == ActionCompleted && r.outcome.Some? then
        s.(returned := s.returned + {(r.key, r.outcome.value)})
      else s
  }

  function Settle(s: Sys, e: nat): Sys
    requires e in s.executors && s.executors[e].Called?
  {
    var key := s.executors[e].key;
    var left := s.executors - {e};
    match s.executors[e].result
    case Returned(outcome) =>
      var (after, result) := CompleteAction(s.db, key, outcome);
      (match result
       case Ok(Some(o)) => s.(db := after, executors := left, returned := s.returned + {(key, o)})
       case _ => s.(db := after, executors := left))
    case Threw(errorType, message) =>
      s.(db := FailAction(s.db, key, errorType, message).0, executors := left)
  }

  /** One step of the system. A step whose actor is not where it would have to be is skipped. */
  ghost function Next(p: RecoveryPolicy, s: Sys, step: Step): Sys {
    match step
    case CreateStep(id, digest, key, metadata, now) =>
      s.(db := CreateRun(s.db, id, digest, key, metadata, now).0)
    case RunStep(id, op) =>
      var after := ApplyTo(s.db, id, op).0;
      s.(db := after, silent := s.silent + if op.Transition? then Terminated(s.db, after, id) else {})
    case ClaimStep(worker, seconds, now) =>
      s.(db := ClaimNext(s.db, worker, seconds, now).0)
    case ListStep(c, now) =>
      s.(coordinators := s.coordinators[c := Coordinator(RecoveryCandidates(s.db, now), None)])
    case CountStep(c) =>
      if c in s.coordinators && s.coordinators[c].todo != [] then
        var k := s.coordinators[c];
        s.(coordinators := s.coordinators[c := k.(receipts := Some(ReceiptCount(s.db, k.todo[0].runId)))])
      else s
    case DecideStep(c, now) =>
      if c in s.coordinators && s.coordinators[c].todo != [] && s.coordinators[c].receipts.Some?
      then Decide(p, s, c, now) else s
    case CoordinatorCrash(c) => s.(coordinators := s.coordinators - {c})
    case ReserveStep(e, id, name, tool, arguments) =>
      if e in s.executors then s else Reserve(s, e, id, name, tool, arguments)
    case CallStep(e, result) =>
      if e in s.executors && s.executors[e].Reserved? then
        var key := s.executors[e].key;
        s.(executors := s.executors[e := Called(key, result)], calls := s.calls[key := CallCount(s, key) + 1])
      else s
    case SettleStep(e) =>
      if e in s.executors && s.executors[e].Called? then Settle(s, e) else s
    case ExecutorCrash(e) => s.(executors := s.executors - {e})
    case OpenReader(r, id) =>
      if id in s.db.runs then s.(readers := s.readers[r := Reader(id, 0, [])]) else s
    case PageStep(r, limit) =>
      if r in s.readers && s.readers[r].runId in s.db.runs && 1 <= limit <= 10000 then
        s.(readers := s.readers[r := Paged(s.readers[r], s.db.runs[s.readers[r].runId].events, limit)])
      else s
  }

  ghost predicate StepAt(p: RecoveryPolicy, trace: seq<Sys>, steps: seq<Step>, i: nat)
    requires |trace| == |steps| + 1 && i < |steps|
  {
    trace[i + 1] == Next(p, trace[i], steps[i])
  }

  /** A run of the system: the states it goes through, from the empty store, and its steps. */
  ghost predicate Behaviour(p: RecoveryPolicy, trace: seq<Sys>, steps: seq<Step>) {
    && |trace| == |steps| + 1 && trace[0] == Start
    && forall i :: 0 <= i < |steps| ==> StepAt(p, trace, steps, i)
  }
}
