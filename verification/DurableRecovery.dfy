// The two coordinators of the durable service as they are written: a reconciliation that
// loops over the abandoned runs, and the executor that wraps one side effect. Each method is
// proved against a function, and the functions against the system they are steps of.

module DurableRecovery {
  import opened Common
  import opened DurableRuns
  import opened DurableTables
  import opened DurableSystem
  import opened DurableStore

  // ---- reconciliation ----

  datatype Item = Item(
    runId: string, previous: RunState, next: RunState, reason: string, policyId: string, changed: bool)

  function Target(d: Decision): RunState {
    if d.action == Requeue then Queued else RecoveryRequired
  }

  /** One listed run: classified, then moved unless the policy leaves it or the row has moved on. */
  function ReconcileOne(p: RecoveryPolicy, db: Db, run: Run, now: Time): (Db, Result<Item>) {
    var d := Classify(p, run, ReceiptCount(db, run.runId));
    if d.action == NoAction then
      (db, Ok(Item(run.runId, run.state, run.state, d.reason, d.policyId, false)))
    else
      var (after, error) := ApplyTo(db, run.runId, RecoveryMove(run, d, now));
      match error
      case None => (after, Ok(Item(run.runId, run.state, Target(d), d.reason, d.policyId, true)))
      case Some(CompareAndSwap) =>
        (db, Ok(Item(run.runId, run.state, run.state, "concurrent_reconciliation", d.policyId, false)))
      case Some(e) => (db, Err(e))
  }

  /** The listed runs in order; the clock gives the time of each transition. */
  ghost function ReconcileAll(p: RecoveryPolicy, db: Db, todo: seq<Run>, clock: nat -> Time): (Db, Result<seq<Item>>) {
    if todo == [] then (db, Ok([]))
    else
      var last := |todo| - 1;
      var (mid, items) := ReconcileAll(p, db, todo[..last], clock);
      if items.Err? then (mid, items)
      else
        var (after, item) := ReconcileOne(p, mid, todo[last], clock(last));
        (after, if item.Ok? then Ok(items.value + [item.value]) else Err(item.error))
  }

  /** A reconciliation is nothing but count and decide steps of the system, one after the other. */
  lemma ReconcileIsSteps(p: RecoveryPolicy, s: Sys, c: nat, now: Time)
    requires c in s.coordinators && s.coordinators[c].todo != []
    ensures var run := s.coordinators[c].todo[0];
            var counted := Next(p, s, CountStep(c));
            var decided := Next(p, counted, DecideStep(c, now));
            && decided.db == ReconcileOne(p, s.db, run, now).0
            && (ReconcileOne(p, s.db, run, now).1.Ok? <==> c in decided.coordinators)
            && (c in decided.coordinators ==> decided.coordinators[c].todo == s.coordinators[c].todo[1..])
  {
    hide ApplyTo, Classify, ReceiptCount;
    var run := s.coordinators[c].todo[0];
    var counted := Next(p, s, CountStep(c));
    assert counted.coordinators[c] == Coordinator(s.coordinators[c].todo, Some(ReceiptCount(s.db, run.runId)));
    assert Next(p, counted, DecideStep(c, now)) == Decide(p, counted, c, now);
    ApplyKeepsDbOnError(s.db, run.runId, RecoveryMove(run, Classify(p, run, ReceiptCount(s.db, run.runId)), now));
  }

  lemma ApplyKeepsDbOnError(db: Db, id: string, op: RunOp)
    ensures ApplyTo(db, id, op).1.Some? ==> ApplyTo(db, id, op).0 == db
  {
  }

  /** A policy that always acts on a run it is asked about, and says why. */
  ghost predicate Decisive(p: RecoveryPolicy) {
    forall run: Run, n: nat :: run.state in {Running, Cancelling} ==>
      var d := Classify(p, run, n);
      d.action != NoAction && !Blank(d.reason) && (d.action == Requeue ==> run.state == Running)
  }

  lemma NotBlank(s: string)
    requires s != [] && !IsSpace(s[0])
    ensures !Blank(s)
  {
    TrimRightKeepsFirst(s);
  }

  lemma {:induction false} TrimRightKeepsFirst(s: string)
    requires s != [] && !IsSpace(s[0])
    ensures TrimRight(s) != []
  {
    if IsSpace(s[|s| - 1]) { TrimRightKeepsFirst(s[..|s| - 1]); }
  }

  lemma ReasonGiven(run: Run, n: nat)
    ensures var s := DefaultClassify(run, n).decision.reason; s != [] && !IsSpace(s[0])
  {
  }

  lemma DefaultIsDecisive(id: string)
    ensures Decisive(RecoveryPolicy(id, DefaultClassify))
  {
    hide Blank, IsSpace;
    var p := RecoveryPolicy(id, DefaultClassify);
    forall run: Run, n: nat ensures !Blank(Classify(p, run, n).reason) {
      ReasonGiven(run, n);
      NotBlank(Classify(p, run, n).reason);
    }
  }

  /** What a reconciliation leaves of a run it found abandoned. */
  ghost predicate Settled(p: RecoveryPolicy, a: Db, b: Db, id: string)
    requires id in a.runs
  {
    var r := a.runs[id];
    var d := Classify(p, r.row, ReceiptCount(a, id));
    && id in b.runs && b.runs[id].row.state == Target(d) && b.runs[id].lease.None?
    && b.runs[id].row.version == r.row.version + 1
    && b.runs[id].row.recoveryAttempts == r.row.recoveryAttempts + (if d.action == Requeue then 1 else 0)
    && r.log < b.runs[id].log && |b.runs[id].log| == |r.log| + 1
  }

  lemma SettlesOne(p: RecoveryPolicy, db: Db, id: string, now: Time)
    requires Decisive(p) && id in db.runs && db.runs[id].row.state in {Running, Cancelling} && db.runs[id].row.runId == id
    ensures var (after, item) := ReconcileOne(p, db, db.runs[id].row, now);
            && item.Ok? && item.value.changed && item.value.runId == id && item.value.next == after.runs[id].row.state
            && Settled(p, db, after, id)
            && after.runs.Keys == db.runs.Keys && after.receipts == db.receipts && after.keys == db.keys
            && forall o :: o in db.runs && o != id ==> after.runs[o] == db.runs[o]
  {
    var d := Classify(p, db.runs[id].row, ReceiptCount(db, id));
    NotBlank("recovery:" + d.policyId);
  }

  lemma {:induction false} InOrderDistinct(times: map<string, Time>, ids: set<string>)
    requires ids <= times.Keys
    ensures forall i, j :: 0 <= i < j < |InOrder(times, ids)| ==> InOrder(times, ids)[i] != InOrder(times, ids)[j]
    ensures forall id :: id in ids ==> id in InOrder(times, ids)
    decreases |ids|
  {
    if ids != {} { InOrderDistinct(times, ids - {Earliest(times, ids)}); }
  }

  /** The rows of distinct abandoned runs, as a reconciliation lists them. */
  ghost predicate Listed(db: Db, ids: seq<string>) {
    && (forall i :: 0 <= i < |ids| ==> ids[i] in db.runs && db.runs[ids[i]].row.state in {Running, Cancelling}
                                       && db.runs[ids[i]].row.runId == ids[i])
    && (forall i, j :: 0 <= i < j < |ids| ==> ids[i] != ids[j])
  }

  ghost predicate SettledUpTo(p: RecoveryPolicy, a: Db, b: Db, ids: seq<string>)
    requires Listed(a, ids)
  {
    && b.runs.Keys == a.runs.Keys && b.receipts == a.receipts && b.keys == a.keys
    && (forall i :: 0 <= i < |ids| ==> Settled(p, a, b, ids[i]))
    && (forall o :: o in a.runs && o !in ids ==> b.runs[o] == a.runs[o])
  }

  lemma SettleNext(p: RecoveryPolicy, a: Db, b: Db, c: Db, ids: seq<string>, id: string)
    requires Listed(a, ids + [id]) && Listed(a, ids) && SettledUpTo(p, a, b, ids)
    requires id in b.runs && Settled(p, b, c, id) && b.runs[id] == a.runs[id]
    requires c.runs.Keys == b.runs.Keys && c.receipts == b.receipts && c.keys == b.keys
    requires forall o :: o in b.runs && o != id ==> c.runs[o] == b.runs[o]
    ensures SettledUpTo(p, a, c, ids + [id])
  {
    var all := ids + [id];
    assert ReceiptKeys(b, id) == ReceiptKeys(a, id);
    forall i | 0 <= i < |all| ensures Settled(p, a, c, all[i]) {
      if i < |ids| {
        assert all[i] == ids[i] && all[|ids|] == id && ids[i] != id;
        assert Settled(p, a, b, ids[i]);
      }
    }
    assert forall o :: o in a.runs && o !in all ==> o !in ids && o != id;
  }

  /** The items name the runs, in their order, as changed, with the states they are in now. */
  ghost predicate Reports(after: Db, items: seq<Item>, ids: seq<string>) {
    |items| == |ids| && forall i :: 0 <= i < |ids| ==>
      && items[i].changed && items[i].runId == ids[i]
      && ids[i] in after.runs && items[i].next == after.runs[ids[i]].row.state
  }

  /** What is reported stays true of what is still to come. */
  lemma ReportNext(p: RecoveryPolicy, a: Db, b: Db, c: Db, items: seq<Item>, item: Item, ids: seq<string>, id: string)
    requires Reports(b, items, ids) && id !in ids && id in c.runs
    requires item.changed && item.runId == id && item.next == c.runs[id].row.state
    requires c.runs.Keys == b.runs.Keys && forall o :: o in b.runs && o != id ==> c.runs[o] == b.runs[o]
    ensures Reports(c, items + [item], ids + [id])
  {
    var all := ids + [id];
    forall i | 0 <= i < |ids| ensures all[i] == ids[i] && ids[i] != id { assert ids[i] in ids; }
  }

  lemma LastListed(db: Db, done: seq<string>, id: string)
    requires Listed(db, done + [id])
    ensures Listed(db, done) && id !in done && id in db.runs && db.runs[id].row.runId == id
    ensures db.runs[id].row.state in {Running, Cancelling}
    ensures Rows(db, done + [id])[..|done|] == Rows(db, done) && Rows(db, done + [id])[|done|] == db.runs[id].row
  {
    var ids := done + [id];
    assert ids[|done|] == id;
    forall i | 0 <= i < |done| ensures done[i] == ids[i] && done[i] != id {}
  }

  lemma AllUnfold(p: RecoveryPolicy, db: Db, todo: seq<Run>, run: Run, clock: nat -> Time)
    requires ReconcileAll(p, db, todo, clock).1.Ok?
    ensures var (mid, items) := ReconcileAll(p, db, todo, clock);
            var (after, item) := ReconcileOne(p, mid, run, clock(|todo|));
            ReconcileAll(p, db, todo + [run], clock)
            == (after, if item.Ok? then Ok(items.value + [item.value]) else Err(item.error))
  {
    hide ReconcileOne;
    var all := todo + [run];
    assert all[..|todo|] == todo && all[|todo|] == run;
  }

  lemma {:induction false} SettlesEach(p: RecoveryPolicy, db: Db, ids: seq<string>, clock: nat -> Time)
    requires Decisive(p) && Listed(db, ids)
    ensures var (after, items) := ReconcileAll(p, db, Rows(db, ids), clock);
            && SettledUpTo(p, db, after, ids)
            && items.Ok? && Reports(after, items.value, ids)
  {
    if ids != [] {
      var last := |ids| - 1;
      var done, id := ids[..last], ids[last];
      assert done + [id] == ids;
      LastListed(db, done, id);
      SettlesEach(p, db, done, clock);
      var todo := Rows(db, done);
      assert Rows(db, ids) == todo + [db.runs[id].row];
      var (mid, items) := ReconcileAll(p, db, todo, clock);
      assert id in mid.runs && mid.runs[id] == db.runs[id];
      hide ReconcileAll, ReconcileOne, Decisive, Listed, SettledUpTo, Settled, Reports, Rows;
      AllUnfold(p, db, todo, db.runs[id].row, clock);
      SettlesOne(p, mid, id, clock(last));
      var (after, item) := ReconcileOne(p, mid, mid.runs[id].row, clock(last));
      SettleNext(p, db, mid, after, done, id);
      ReportNext(p, db, mid, after, items.value, item.value, done, id);
    }
  }

  ghost predicate IsReported(items: seq<Item>, id: string) {
    exists i :: 0 <= i < |items| && items[i].runId == id
  }

  /** An uninterrupted reconciliation moves every abandoned run out of the way, reports each as
      changed, touches no other run, and leaves nothing for a second one to find. */
  lemma ReconciliationIsComplete(p: RecoveryPolicy, db: Db, now: Time, clock: nat -> Time)
    requires Decisive(p) && DbOk(db)
    ensures var (after, items) := ReconcileAll(p, db, RecoveryCandidates(db, now), clock);
            && (forall id :: id in AbandonedIds(db, now) ==> Settled(p, db, after, id))
            && (forall id :: id in db.runs && id !in AbandonedIds(db, now) ==>
                  id in after.runs && after.runs[id] == db.runs[id])
            && items.Ok? && Reports(after, items.value, InOrder(UpdatedAt(db), AbandonedIds(db, now)))
            && (forall i, j :: 0 <= i < j < |items.value| ==> items.value[i].runId != items.value[j].runId)
            && (forall id :: id in AbandonedIds(db, now) ==> IsReported(items.value, id))
            && RecoveryCandidates(after, now) == []
  {
    hide ReconcileAll, Decisive, RecordOk, InOrder, Settled, Reports;
    var ids := InOrder(UpdatedAt(db), AbandonedIds(db, now));
    ListedInOrder(db, now);
    SettlesEach(p, db, ids, clock);
    var (after, items) := ReconcileAll(p, db, RecoveryCandidates(db, now), clock);
    SettledAll(p, db, after, now, ids);
    NothingLeft(p, db, after, now);
    ReportedOnce(after, items.value, ids);
    forall id | id in AbandonedIds(db, now) ensures IsReported(items.value, id) {
      assert id in ids;
    }
  }

  /** The candidates are the abandoned runs, each once. */
  lemma ListedInOrder(db: Db, now: Time)
    requires DbOk(db)
    ensures var ids := InOrder(UpdatedAt(db), AbandonedIds(db, now));
            && Listed(db, ids) && (forall id :: id in AbandonedIds(db, now) <==> id in ids)
            && RecoveryCandidates(db, now) == Rows(db, ids)
  {
    hide RecordOk, InOrder;
    InOrderDistinct(UpdatedAt(db), AbandonedIds(db, now));
  }

  lemma SettledAll(p: RecoveryPolicy, db: Db, after: Db, now: Time, ids: seq<string>)
    requires Listed(db, ids) && SettledUpTo(p, db, after, ids)
    requires forall id :: id in AbandonedIds(db, now) <==> id in ids
    ensures after.runs.Keys == db.runs.Keys
    ensures forall id :: id in AbandonedIds(db, now) ==> Settled(p, db, after, id)
    ensures forall id :: id in db.runs && id !in AbandonedIds(db, now) ==> id in after.runs && after.runs[id] == db.runs[id]
  {
    hide Settled, AbandonedIds;
    forall id | id in AbandonedIds(db, now) ensures id in db.runs && Settled(p, db, after, id) {
      var i :| 0 <= i < |ids| && ids[i] == id;
      assert Settled(p, db, after, ids[i]);
    }
  }

  lemma NothingLeft(p: RecoveryPolicy, db: Db, after: Db, now: Time)
    requires after.runs.Keys == db.runs.Keys
    requires forall id :: id in AbandonedIds(db, now) ==> Settled(p, db, after, id)
    requires forall id :: id in db.runs && id !in AbandonedIds(db, now) ==> after.runs[id] == db.runs[id]
    ensures RecoveryCandidates(after, now) == []
  {
    hide InOrder;
    forall id | id in after.runs ensures !Abandoned(after.runs[id], now) {
      if id in AbandonedIds(db, now) { assert Settled(p, db, after, id); }
    }
    assert AbandonedIds(after, now) == {};
  }

  lemma ReportedOnce(after: Db, items: seq<Item>, ids: seq<string>)
    requires Reports(after, items, ids) && forall i, j :: 0 <= i < j < |ids| ==> ids[i] != ids[j]
    ensures forall i, j :: 0 <= i < j < |items| ==> items[i].runId != items[j].runId
    ensures forall id :: id in ids ==> IsReported(items, id)
  {
    forall id | id in ids ensures IsReported(items, id) {
      var i :| 0 <= i < |ids| && ids[i] == id;
      assert items[i].runId == id;
    }
  }

  /** The registry's guard: a policy that raises is recorded and read as manual. */
  class RecoveryPolicyRegistry {
    const active: RecoveryPolicy
    var failures: seq<(string, string, string)>

    constructor (active: RecoveryPolicy)
      ensures this.active == active && failures == []
    {
      this.active := active;
      failures := [];
    }

    method Classify(run: Run, receipts: nat) returns (d: Decision)
      modifies this
      ensures Guarded(active).classify(run, receipts) == Decided(d)
      ensures active.classify(run, receipts).Decided? ==> failures == old(failures) && active.classify(run, receipts).decision == d
      ensures active.classify(run, receipts).Raised? ==>
                && d.action == Manual
                && exists e, m :: active.classify(run, receipts) == Raised(e, m)
                                  && failures == old(failures) + [(active.id, e, Prefix(m, 500))]
    {
      match active.classify(run, receipts)
      case Decided(decision) => d := decision;
      case Raised(e, m) =>
        failures := failures + [(active.id, e, Prefix(m, 500))];
        d := Decision(Manual, "plugin_policy_error:" + e, active.id);
    }
  }

  ghost predicate UniquePolicies(policies: seq<RecoveryPolicy>) {
    forall i, j :: 0 <= i < j < |policies| ==> policies[i].id != policies[j].id
  }

  lemma NoPolicies()
    ensures UniquePolicies([])
  {
  }

  lemma UniquePush(policies: seq<RecoveryPolicy>, p: RecoveryPolicy)
    ensures UniquePolicies(policies + [p])
            <==> UniquePolicies(policies) && forall j :: 0 <= j < |policies| ==> policies[j].id != p.id
  {
    var all := policies + [p];
    if UniquePolicies(all) {
      forall i, j | 0 <= i < j < |policies| ensures policies[i].id != policies[j].id { assert all[i].id != all[j].id; }
      forall j | 0 <= j < |policies| ensures policies[j].id != p.id { assert all[j].id != all[|policies|].id; }
    }
  }

  /** Building a registry: the ids have to be unique and the active one among them. */
  method NewRegistry(policies: seq<RecoveryPolicy>, activeId: string) returns (r: Result<RecoveryPolicyRegistry>)
    ensures r.Ok? <==> UniquePolicies(policies) && exists i :: 0 <= i < |policies| && policies[i].id == activeId
    ensures r.Ok? ==> fresh(r.value) && r.value.failures == [] && r.value.active.id == activeId && r.value.active in policies
    ensures r.Err? ==> r.error == ValueError
  {
    var mapping: map<string, RecoveryPolicy> := map[];
    hide UniquePolicies;
    NoPolicies();
    for i := 0 to |policies|
      invariant |mapping| <= i && (|mapping| == i <==> UniquePolicies(policies[..i]))
      invariant forall id :: id in mapping <==> exists j :: 0 <= j < i && policies[j].id == id
      invariant forall id :: id in mapping ==> mapping[id].id == id && mapping[id] in policies
    {
      var p := policies[i];
      assert policies[..i + 1] == policies[..i] + [p];
      UniquePush(policies[..i], p);
      mapping := mapping[p.id := p];
    }
    assert policies[..|policies|] == policies;
    if |mapping| != |policies| { return Err(ValueError); }
    if activeId !in mapping { return Err(ValueError); }
    var registry := new RecoveryPolicyRegistry(mapping[activeId]);
    r := Ok(registry);
  }

  class RecoveryCoordinator {
    const store: RunStore
    const policy: RecoveryPolicy

    constructor (store: RunStore, policy: RecoveryPolicy)
      ensures this.store == store && this.policy == policy
    {
      this.store := store;
      this.policy := policy;
    }

    /** action_receipt_count. */
    method CountReceipts(runId: string) returns (n: nat)
      requires store.Valid()
      ensures n == ReceiptCount(store.db, runId)
    {
      var keys := set k | k in store.receipts && store.receipts[k].runId == runId;
      assert keys == ReceiptKeys(store.db, runId);
      n := |keys|;
    }

    method ReconcileRun(run: Run, now: Time) returns (r: Result<Item>)
      requires store.Valid()
      modifies store
      ensures store.Valid() && (store.db, r) == ReconcileOne(policy, old(store.db), run, now)
    {
      var receipts := CountReceipts(run.runId);
      var d := DurableSystem.Classify(policy, run, receipts);
      hide DurableSystem.Classify, ApplyTo;
      if d.action == NoAction {
        return Ok(Item(run.runId, run.state, run.state, d.reason, d.policyId, false));
      }
      ApplyKeepsDbOnError(store.db, run.runId, RecoveryMove(run, d, now));
      var next := if d.action == Requeue then Queued else RecoveryRequired;
      var error := store.Transition(run.runId, run.state, run.version, next, d.reason, "recovery:" + d.policyId,
                                    now, d.action == Requeue);
      match error
      case None => r := Ok(Item(run.runId, run.state, next, d.reason, d.policyId, true));
      case Some(CompareAndSwap) =>
        r := Ok(Item(run.runId, run.state, run.state, "concurrent_reconciliation", d.policyId, false));
      case Some(e) => r := Err(e);
    }

    method Reconcile(now: Time, clock: nat -> Time) returns (r: Result<seq<Item>>)
      requires store.Valid()
      modifies store
      ensures store.Valid()
      ensures (store.db, r) == ReconcileAll(policy, old(store.db), RecoveryCandidates(old(store.db), now), clock)
    {
      hide ReconcileOne, RecoveryCandidates, store.Valid;
      var todo := store.ListRecoveryCandidates(now);
      var items := [];
      var i := 0;
      while i < |todo|
        invariant 0 <= i <= |todo| && store.Valid()
        invariant (store.db, Ok(items)) == ReconcileAll(policy, old(store.db), todo[..i], clock)
      {
        assert todo[..i + 1][..i] == todo[..i];
        var item := ReconcileRun(todo[i], clock(i));
        if item.Err? {
          ErrorSticks(policy, old(store.db), todo, clock, i + 1);
          return Err(item.error);
        }
        items := items + [item.value];
        i := i + 1;
      }
      assert todo[..|todo|] == todo;
      r := Ok(items);
    }
  }

  /** An error ends the reconciliation: the runs listed after it are not visited. */
  lemma {:induction false} ErrorSticks(p: RecoveryPolicy, db: Db, todo: seq<Run>, clock: nat -> Time, n: nat)
    requires n <= |todo| && ReconcileAll(p, db, todo[..n], clock).1.Err?
    ensures ReconcileAll(p, db, todo, clock) == ReconcileAll(p, db, todo[..n], clock)
    decreases |todo|
  {
    hide ReconcileOne;
    if n == |todo| {
      assert todo[..n] == todo;
    } else {
      var last := |todo| - 1;
      assert todo[..last][..n] == todo[..n];
      ErrorSticks(p, db, todo[..last], clock, n);
    }
  }

  // ---- one idempotent action ----

  /** The tables, what execute returns, and whether the callback ran. */
  function Executed(db: Db, runId: string, step: string, tool: string, arguments: string,
                    callback: CallbackResult): (Db, Result<Json>, bool)
  {
    var (reserved, reservation) := ReserveAction(db, runId, step, tool, arguments);
    match reservation
    case Err(e) => (db, Err(e), false)
    case Ok(r) =>
      if !r.created then
        (db, if r.status == ActionCompleted && r.outcome.Some? then Ok(r.outcome.value) else Err(ActionInProgress), false)
      else
        match callback
        case Threw(errorType, message) =>
          var (after, refused) := FailAction(reserved, r.key, errorType, message);
          (after, Err(if refused.Some? then refused.value else CallbackRaised), true)
        case Returned(outcome) =>
          var (after, done) := CompleteAction(reserved, r.key, outcome);
          (after, match done case Ok(Some(o)) => Ok(o) case Ok(None) => Ok(Object(map[])) case Err(e) => Err(e), true)
  }

  class IdempotentActionExecutor {
    const store: RunStore

    constructor (store: RunStore)
      ensures this.store == store
    {
      this.store := store;
    }

    method Execute(runId: string, step: string, tool: string, arguments: string, callback: CallbackResult)
      returns (r: Result<Json>, called: bool)
      requires store.Valid()
      modifies store
      ensures store.Valid() && (store.db, r, called) == Executed(old(store.db), runId, step, tool, arguments, callback)
    {
      hide store.Valid;
      var reservation := store.ReserveAction(runId, step, tool, arguments);
      if reservation.Err? { return Err(reservation.error), false; }
      var reserved := reservation.value;
      if !reserved.created {
        if reserved.status == ActionCompleted && reserved.outcome.Some? { return Ok(reserved.outcome.value), false; }
        return Err(ActionInProgress), false;
      }
      match callback
      case Threw(errorType, message) =>
        var refused := store.FailAction(reserved.key, errorType, message);
        return Err(if refused.Some? then refused.value else CallbackRaised), true;
      case Returned(outcome) =>
        var done := store.CompleteAction(reserved.key, outcome);
        r := match done case Ok(Some(o)) => Ok(o) case Ok(None) => Ok(Object(map[])) case Err(e) => Err(e);
        called := true;
    }
  }

  /** Executing the same action again never calls back and never changes anything: it returns
      the first outcome, or refuses when the first attempt did not complete. */
  lemma ExecuteAgain(db: Db, runId: string, step: string, tool: string, arguments: string,
                     first: CallbackResult, second: CallbackResult)
    requires Executed(db, runId, step, tool, arguments, first).2
    ensures var (after, r, _) := Executed(db, runId, step, tool, arguments, first);
            && (first.Returned? ==> r == Ok(first.outcome))
            && Executed(after, runId, step, tool, arguments, second)
               == (after, if first.Returned? then Ok(first.outcome) else Err(ActionInProgress), false)
  {
  }
}
