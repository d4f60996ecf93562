// Side effects under concurrency: over any interleaving of executors, with a crash possible
// after every step, the callback of an action key runs at most once.

module DurableActions {
  import opened Common
  import opened DurableRuns
  import opened DurableTables
  import opened DurableSystem

  ghost predicate Owned(s: Sys, key: ActionKey) {
    exists e :: e in s.executors && s.executors[e].key == key
  }

  ghost predicate ExecutorsOk(s: Sys) {
    && (forall e :: e in s.executors ==>
          && s.executors[e].key in s.db.receipts
          && s.db.receipts[s.executors[e].key].status == ActionPending
          && CallCount(s, s.executors[e].key) == (if s.executors[e].Reserved? then 0 else 1))
    && (forall e, f :: e in s.executors && f in s.executors && e != f ==> s.executors[e].key != s.executors[f].key)
  }

  ghost predicate ReceiptsOk(s: Sys) {
    && (forall k :: CallCount(s, k) <= 1)
    && (forall k :: k !in s.db.receipts ==> CallCount(s, k) == 0)
    && (forall k :: k in s.db.receipts ==>
          && (s.db.receipts[k].status == ActionPending <==> s.db.receipts[k].outcome.None?)
          && (s.db.receipts[k].status != ActionPending ==> CallCount(s, k) == 1))
  }

  ghost predicate ReturnsOk(s: Sys) {
    forall r :: r in s.returned ==>
      r.0 in s.db.receipts && s.db.receipts[r.0].status == ActionCompleted
      && s.db.receipts[r.0].outcome == Some(r.1)
  }

  ghost predicate ActionInv(s: Sys) {
    ExecutorsOk(s) && ReceiptsOk(s) && ReturnsOk(s)
  }

  predicate ActsOnReceipts(step: Step) {
    step.ReserveStep? || step.CallStep? || step.SettleStep? || step.ExecutorCrash?
  }

  lemma DecideActions(p: RecoveryPolicy, s: Sys, c: nat, now: Time)
    requires c in s.coordinators && s.coordinators[c].todo != [] && s.coordinators[c].receipts.Some?
    ensures var t := Decide(p, s, c, now);
            t.db.receipts == s.db.receipts && t.executors == s.executors && t.calls == s.calls
            && t.returned == s.returned
  {
    hide Apply, Classify, RecoveryMove, Terminated;
  }

  /** Run operations, coordinators and readers leave the actions alone. */
  lemma ActionFrame(p: RecoveryPolicy, s: Sys, step: Step)
    requires !ActsOnReceipts(step)
    ensures var t := Next(p, s, step);
            t.db.receipts == s.db.receipts && t.executors == s.executors && t.calls == s.calls
            && t.returned == s.returned
  {
    hide Apply, CreateRun, Decide, RecoveryCandidates, ReceiptCount, Paged, Terminated, Earliest, Claimed;
    match step
    case CreateStep(id, digest, key, metadata, now) => CreateRunInserts(s.db, id, digest, key, metadata, now);
    case DecideStep(c, now) =>
      if c in s.coordinators && s.coordinators[c].todo != [] && s.coordinators[c].receipts.Some? {
        DecideActions(p, s, c, now);
      }
    case _ =>
  }

  function Opened(s: Sys, e: nat, key: ActionKey, runId: string): Sys {
    s.(db := s.db.(receipts := s.db.receipts[key := Receipt(runId, ActionPending, None)]),
       executors := s.executors[e := Reserved(key)])
  }

  /** Reserving does nothing, returns a completed outcome, or opens a new pending receipt. */
  lemma ReserveCases(s: Sys, e: nat, id: string, name: string, tool: string, arguments: string)
    returns (key: ActionKey, outcome: Json)
    ensures var t := Reserve(s, e, id, name, tool, arguments);
            || t == s
            || (key in s.db.receipts && s.db.receipts[key].status == ActionCompleted
                && s.db.receipts[key].outcome == Some(outcome) && t == s.(returned := s.returned + {(key, outcome)}))
            || (key !in s.db.receipts && t == Opened(s, e, key, id))
  {
    outcome := Other(0);
    key := ActionKey(Strip(id), Strip(name), Strip(tool), arguments);
    if key in s.db.receipts && s.db.receipts[key].outcome.Some? { outcome := s.db.receipts[key].outcome.value; }
  }

  lemma OpenedKeeps(s: Sys, e: nat, key: ActionKey, runId: string)
    requires ActionInv(s) && e !in s.executors && key !in s.db.receipts
    ensures ActionInv(Opened(s, e, key, runId))
  {
    assert forall k :: CallCount(Opened(s, e, key, runId), k) == CallCount(s, k);
  }

  lemma ReserveKeeps(s: Sys, e: nat, id: string, name: string, tool: string, arguments: string)
    requires ActionInv(s) && e !in s.executors
    ensures ActionInv(Reserve(s, e, id, name, tool, arguments))
  {
    var key, outcome := ReserveCases(s, e, id, name, tool, arguments);
    var t := Reserve(s, e, id, name, tool, arguments);
    if t == Opened(s, e, key, id) && key !in s.db.receipts {
      OpenedKeeps(s, e, key, id);
    } else {
      assert forall k :: CallCount(t, k) == CallCount(s, k);
    }
  }

  lemma CallKeeps(s: Sys, e: nat, result: CallbackResult)
    requires ActionInv(s) && e in s.executors && s.executors[e].Reserved?
    ensures var key := s.executors[e].key;
            ActionInv(s.(executors := s.executors[e := Called(key, result)],
                         calls := s.calls[key := CallCount(s, key) + 1]))
  {
    var key := s.executors[e].key;
    var t := s.(executors := s.executors[e := Called(key, result)], calls := s.calls[key := CallCount(s, key) + 1]);
    assert forall k :: CallCount(t, k) == CallCount(s, k) + if k == key then 1 else 0;
  }

  function SettledReceipt(r: Receipt, result: CallbackResult): Receipt {
    match result
    case Returned(o) => r.(status := ActionCompleted, outcome := Some(o))
    case Threw(t, m) =>
      if Blank(t) || Blank(m) then r else r.(status := ActionFailed, outcome := Some(FailureOutcome(t, m)))
  }

  /** What settling amounts to for an executor that owns a pending receipt. */
  lemma SettleIs(s: Sys, e: nat)
    requires ExecutorsOk(s) && e in s.executors && s.executors[e].Called?
    ensures var x := s.executors[e];
            Settle(s, e)
            == s.(db := s.db.(receipts := s.db.receipts[x.key := SettledReceipt(s.db.receipts[x.key], x.result)]),
                  executors := s.executors - {e},
                  returned := s.returned + if x.result.Returned? then {(x.key, x.result.outcome)} else {})
  {
    var x := s.executors[e];
    if x.result.Threw? && SettledReceipt(s.db.receipts[x.key], x.result) == s.db.receipts[x.key] {
      assert s.db.receipts[x.key := s.db.receipts[x.key]] == s.db.receipts;
    }
  }

  /** A settled receipt belongs to nobody else, so no other executor notices. */
  lemma SettleKeeps(s: Sys, e: nat)
    requires ActionInv(s) && e in s.executors && s.executors[e].Called?
    ensures ActionInv(Settle(s, e))
  {
    SettleIs(s, e);
    var t := Settle(s, e);
    assert forall k :: CallCount(t, k) == CallCount(s, k);
  }

  lemma CrashKeeps(s: Sys, e: nat)
    requires ActionInv(s)
    ensures ActionInv(s.(executors := s.executors - {e}))
  {
    assert forall k :: CallCount(s.(executors := s.executors - {e}), k) == CallCount(s, k);
  }

  lemma SameActions(s: Sys, t: Sys)
    requires ActionInv(s) && t.db.receipts == s.db.receipts && t.executors == s.executors
    requires t.calls == s.calls && t.returned == s.returned
    ensures ActionInv(t)
  {
    assert forall k :: CallCount(t, k) == CallCount(s, k);
  }

  lemma StepKeepsActions(p: RecoveryPolicy, s: Sys, step: Step)
    requires ActionInv(s)
    ensures ActionInv(Next(p, s, step))
  {
    if !ActsOnReceipts(step) {
      ActionFrame(p, s, step);
      SameActions(s, Next(p, s, step));
    } else {
      match step
      case ReserveStep(e, id, name, tool, arguments) =>
        if e !in s.executors { ReserveKeeps(s, e, id, name, tool, arguments); }
      case CallStep(e, result) =>
        if e in s.executors && s.executors[e].Reserved? { CallKeeps(s, e, result); }
      case SettleStep(e) =>
        if e in s.executors && s.executors[e].Called? { SettleKeeps(s, e); }
      case ExecutorCrash(e) => CrashKeeps(s, e);
    }
  }

  lemma {:induction false} ReachableActions(p: RecoveryPolicy, trace: seq<Sys>, steps: seq<Step>, n: nat)
    requires Behaviour(p, trace, steps) && n < |trace|
    ensures ActionInv(trace[n])
  {
    hide Next;
    if n > 0 {
      ReachableActions(p, trace, steps, n - 1);
      assert StepAt(p, trace, steps, n - 1);
      StepKeepsActions(p, trace[n - 1], steps[n - 1]);
    }
  }

  /** At most once: whatever interleaves and whoever crashes, the callback of a key has run at
      most once, it has run if the receipt is settled, and all successful returns agree. */
  lemma CallbackAtMostOnce(p: RecoveryPolicy, trace: seq<Sys>, steps: seq<Step>, n: nat,
                           key: ActionKey, first: Json, second: Json)
    requires Behaviour(p, trace, steps) && n < |trace|
    ensures var s := trace[n];
            && CallCount(s, key) <= 1
            && (key in s.db.receipts && s.db.receipts[key].status != ActionPending ==> CallCount(s, key) == 1)
            && ((key, first) in s.returned && (key, second) in s.returned ==> first == second)
  {
    ReachableActions(p, trace, steps, n);
    var s := trace[n];
    if (key, first) in s.returned && (key, second) in s.returned {
      assert s.db.receipts[(key, first).0].outcome == Some(first);
      assert s.db.receipts[(key, second).0].outcome == Some(second);
    }
  }

  /** A receipt stays once made, and leaves pending at most once. */
  ghost predicate Forward(a: Db, b: Db) {
    forall k :: k in a.receipts ==>
      && k in b.receipts && b.receipts[k].runId == a.receipts[k].runId
      && (a.receipts[k].status != ActionPending ==> b.receipts[k] == a.receipts[k])
  }

  lemma StepForward(p: RecoveryPolicy, s: Sys, step: Step)
    requires ActionInv(s)
    ensures Forward(s.db, Next(p, s, step).db)
  {
    if !ActsOnReceipts(step) {
      hide Next, ActionInv;
      ActionFrame(p, s, step);
    } else {
      hide Reserve, Settle;
      match step
      case ReserveStep(e, id, name, tool, arguments) =>
        var key, outcome := ReserveCases(s, e, id, name, tool, arguments);
      case SettleStep(e) =>
        if e in s.executors && s.executors[e].Called? { SettleIs(s, e); }
      case _ =>
    }
  }

  /** Receipts move only pending -> completed or pending -> failed. */
  lemma {:induction false} ReceiptsMoveForward(p: RecoveryPolicy, trace: seq<Sys>, steps: seq<Step>, m: nat, n: nat)
    requires Behaviour(p, trace, steps) && m <= n < |trace|
    ensures Forward(trace[m].db, trace[n].db)
    decreases n
  {
    hide Next;
    if m < n {
      ReceiptsMoveForward(p, trace, steps, m, n - 1);
      ReachableActions(p, trace, steps, n - 1);
      assert StepAt(p, trace, steps, n - 1);
      StepForward(p, trace[n - 1], steps[n - 1]);
    }
  }

  /** Settling: a returned outcome completes the receipt and is what execute returns; an
      exception fails it, unless its message is blank, which leaves the receipt pending. */
  lemma SettleEffect(p: RecoveryPolicy, trace: seq<Sys>, steps: seq<Step>, n: nat, e: nat)
    requires Behaviour(p, trace, steps) && n < |trace|
    requires e in trace[n].executors && trace[n].executors[e].Called?
    ensures var t := Settle(trace[n], e);
            var key := trace[n].executors[e].key;
            && key in t.db.receipts && !Owned(t, key)
            && match trace[n].executors[e].result
               case Returned(o) =>
                 t.db.receipts[key].status == ActionCompleted && t.db.receipts[key].outcome == Some(o)
                 && (key, o) in t.returned
               case Threw(errorType, message) =>
                 (t.db.receipts[key].status == ActionFailed <==> !Blank(errorType) && !Blank(message))
                 && (t.db.receipts[key].status == ActionPending <==> Blank(errorType) || Blank(message))
                 && t.returned == trace[n].returned
  {
    ReachableActions(p, trace, steps, n);
    SettleIs(trace[n], e);
  }

  /** A pending receipt nobody owns: its executor crashed, or failed with a blank message. */
  ghost predicate Orphaned(s: Sys, key: ActionKey) {
    key in s.db.receipts && s.db.receipts[key].status == ActionPending && !Owned(s, key)
  }

  lemma OrphanReserve(s: Sys, e: nat, id: string, name: string, tool: string, arguments: string, key: ActionKey)
    requires Orphaned(s, key) && e !in s.executors
    ensures var t := Reserve(s, e, id, name, tool, arguments);
            Orphaned(t, key) && CallCount(t, key) == CallCount(s, key)
  {
    var k, o := ReserveCases(s, e, id, name, tool, arguments);
  }

  lemma OrphanSettle(s: Sys, e: nat, key: ActionKey)
    requires ExecutorsOk(s) && Orphaned(s, key) && e in s.executors && s.executors[e].Called?
    ensures Orphaned(Settle(s, e), key) && CallCount(Settle(s, e), key) == CallCount(s, key)
  {
    SettleIs(s, e);
  }

  lemma SameOrphan(s: Sys, t: Sys, key: ActionKey)
    requires Orphaned(s, key) && t.db.receipts == s.db.receipts && t.executors == s.executors && t.calls == s.calls
    ensures Orphaned(t, key) && CallCount(t, key) == CallCount(s, key)
  {
  }

  lemma OrphanStaysOrphaned(p: RecoveryPolicy, s: Sys, step: Step, key: ActionKey)
    requires ActionInv(s) && Orphaned(s, key)
    ensures var t := Next(p, s, step);
            Orphaned(t, key) && CallCount(t, key) == CallCount(s, key)
  {
    if !ActsOnReceipts(step) {
      hide *;
      ActionFrame(p, s, step);
      SameOrphan(s, Next(p, s, step), key);
    } else {
      hide Reserve, Settle;
      match step
      case ReserveStep(e, id, name, tool, arguments) =>
        if e !in s.executors { OrphanReserve(s, e, id, name, tool, arguments, key); }
      case SettleStep(e) =>
        if e in s.executors && s.executors[e].Called? { OrphanSettle(s, e, key); }
      case _ =>
    }
  }

  /** No retry: once orphaned, an action key is never called, completed or returned again,
      whatever is executed afterwards. */
  lemma {:induction false} OrphanedForEver(p: RecoveryPolicy, trace: seq<Sys>, steps: seq<Step>,
                                           m: nat, n: nat, key: ActionKey)
    requires Behaviour(p, trace, steps) && m <= n < |trace| && Orphaned(trace[m], key)
    ensures Orphaned(trace[n], key) && CallCount(trace[n], key) == CallCount(trace[m], key)
    ensures forall o :: (key, o) !in trace[n].returned
    decreases n
  {
    hide Next;
    ReachableActions(p, trace, steps, n);
    if m < n {
      OrphanedForEver(p, trace, steps, m, n - 1, key);
      ReachableActions(p, trace, steps, n - 1);
      assert StepAt(p, trace, steps, n - 1);
      OrphanStaysOrphaned(p, trace[n - 1], steps[n - 1], key);
    }
    assert forall o :: (key, o) in trace[n].returned ==> trace[n].db.receipts[(key, o).0].status == ActionCompleted;
  }
}
