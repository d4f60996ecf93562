// Two guarantees and exactly when they fail. "Requeued means no external action was started"
// holds when nothing interleaves: reserve_action does not move the run's version, so the
// compare-and-swap of a reconciliation cannot see a receipt made after it counted. And a
// failure whose message is blank is never recorded.

module DurableGaps {
  import opened Common
  import opened DurableRuns
  import opened DurableTables
  import opened DurableSystem
  import opened DurableSafety
  import opened DurableActions

  const Default := RecoveryPolicy("default-v1", DefaultClassify)

  /** A receipt of the run has been made. */
  ghost predicate HasReceipt(db: Db, id: string) {
    exists k :: k in db.receipts && db.receipts[k].runId == id
  }

  lemma CountIsZeroIff(db: Db, id: string)
    ensures ReceiptCount(db, id) == 0 <==> !HasReceipt(db, id)
  {
    assert forall k :: k in ReceiptKeys(db, id) <==> k in db.receipts && db.receipts[k].runId == id;
  }

  /** Without interleaving the guarantee holds: a decision on the current row and the current
      receipts requeues iff the run is running, was never recovered, and has no receipt. */
  lemma AtomicRequeueHasNoReceipt(db: Db, id: string, now: Time)
    requires id in db.runs
    ensures var row := db.runs[id].row;
            var d := Classify(Default, row, ReceiptCount(db, id));
            && (d.action == Requeue <==> row.state == Running && row.recoveryAttempts == 0 && !HasReceipt(db, id))
            && ApplyTo(db, id, RecoveryMove(row, d, now)).0.receipts == db.receipts
  {
    CountIsZeroIff(db, id);
  }

  // ---- with interleaving ----

  /** Such a policy requeues only on a count of zero. */
  ghost predicate RequeuesUnreceipted(p: RecoveryPolicy) {
    forall run, n :: Classify(p, run, n).action == Requeue ==> n == 0
  }

  lemma DefaultRequeuesUnreceipted()
    ensures RequeuesUnreceipted(Default)
  {
  }

  /** The step reserves a new action of the run. */
  predicate Reserves(s: Sys, step: Step, id: string) {
    && step.ReserveStep? && step.executor !in s.executors && step.runId == id && id in s.db.runs
    && var key := MakeActionKey(id, step.step, step.tool, step.arguments);
       key.Some? && key.value !in s.db.receipts
  }

  lemma ReserveMakes(s: Sys, step: Step, id: string)
    requires step.ReserveStep? && step.executor !in s.executors
    ensures var t := Reserve(s, step.executor, step.runId, step.step, step.tool, step.arguments);
            HasReceipt(t.db, id) <==> HasReceipt(s.db, id) || Reserves(s, step, id)
  {
    var t := Reserve(s, step.executor, step.runId, step.step, step.tool, step.arguments);
    if Reserves(s, step, id) {
      var key := MakeActionKey(id, step.step, step.tool, step.arguments).value;
      assert key in t.db.receipts && t.db.receipts[key].runId == id;
    }
    if HasReceipt(s.db, id) {
      var k :| k in s.db.receipts && s.db.receipts[k].runId == id;
      assert k in t.db.receipts && t.db.receipts[k].runId == id;
    }
  }

  lemma SettleMakesNone(s: Sys, e: nat, id: string)
    requires ActionInv(s) && e in s.executors && s.executors[e].Called?
    ensures HasReceipt(Settle(s, e).db, id) <==> HasReceipt(s.db, id)
  {
    SettleIs(s, e);
    hide Settle;
    var t := Settle(s, e);
    assert forall k :: k in t.db.receipts <==> k in s.db.receipts;
    assert forall k :: k in t.db.receipts ==> t.db.receipts[k].runId == s.db.receipts[k].runId;
  }

  /** Only a reservation makes a receipt. */
  lemma StepReserves(p: RecoveryPolicy, s: Sys, step: Step, id: string)
    requires ActionInv(s)
    ensures HasReceipt(Next(p, s, step).db, id) <==> HasReceipt(s.db, id) || Reserves(s, step, id)
  {
    hide HasReceipt, ActionInv, Reserve, Settle;
    if !ActsOnReceipts(step) {
      ActionFrame(p, s, step);
      SameReceipts(s.db, Next(p, s, step).db, id);
    } else {
      match step
      case ReserveStep(e, run, name, tool, arguments) =>
        if e !in s.executors { ReserveMakes(s, step, id); }
      case SettleStep(e) =>
        if e in s.executors && s.executors[e].Called? { SettleMakesNone(s, e, id); }
      case _ =>
    }
  }

  lemma SameReceipts(a: Db, b: Db, id: string)
    requires a.receipts == b.receipts
    ensures HasReceipt(a, id) <==> HasReceipt(b, id)
  {
  }

  ghost predicate ReservedBetween(trace: seq<Sys>, steps: seq<Step>, m: nat, n: nat, id: string)
    requires n <= |trace| && n <= |steps|
  {
    exists i :: m <= i < n && Reserves(trace[i], steps[i], id)
  }

  lemma BetweenSplit(trace: seq<Sys>, steps: seq<Step>, m: nat, n: nat, id: string)
    requires m < n <= |trace| && n <= |steps|
    ensures ReservedBetween(trace, steps, m, n, id)
            <==> ReservedBetween(trace, steps, m, n - 1, id) || Reserves(trace[n - 1], steps[n - 1], id)
    ensures ReservedBetween(trace, steps, m, n, id)
            <==> Reserves(trace[m], steps[m], id) || ReservedBetween(trace, steps, m + 1, n, id)
  {
    hide Reserves;
  }

  /** A run without receipts has one later iff one was reserved in between. */
  lemma {:induction false} ReceiptsSince(p: RecoveryPolicy, trace: seq<Sys>, steps: seq<Step>, m: nat, n: nat, id: string)
    requires Behaviour(p, trace, steps) && m <= n < |trace| && !HasReceipt(trace[m].db, id)
    ensures HasReceipt(trace[n].db, id) <==> ReservedBetween(trace, steps, m, n, id)
    decreases n
  {
    hide Next, HasReceipt, Reserves;
    if m < n {
      ReceiptsSince(p, trace, steps, m, n - 1, id);
      ReachableActions(p, trace, steps, n - 1);
      assert StepAt(p, trace, steps, n - 1);
      StepReserves(p, trace[n - 1], steps[n - 1], id);
      BetweenSplit(trace, steps, m, n, id);
    }
  }

  /** What a coordinator holds after counting, and until it decides. */
  ghost predicate Counted(trace: seq<Sys>, c: nat, m: nat, n: nat)
    requires m < n < |trace|
  {
    && c in trace[m].coordinators && trace[m].coordinators[c].todo != []
    && forall i :: m < i <= n ==>
         && c in trace[i].coordinators
         && trace[i].coordinators[c]
            == Coordinator(trace[m].coordinators[c].todo, Some(ReceiptCount(trace[m].db, trace[m].coordinators[c].todo[0].runId)))
  }

  /** A count that a coordinator holds was taken by a step of its own, and nothing has touched
      the coordinator since. */
  lemma {:induction false} CountTaken(p: RecoveryPolicy, trace: seq<Sys>, steps: seq<Step>, n: nat, c: nat) returns (m: nat)
    requires Behaviour(p, trace, steps) && n < |trace|
    requires c in trace[n].coordinators && trace[n].coordinators[c].receipts.Some? && trace[n].coordinators[c].todo != []
    ensures m < n && steps[m] == CountStep(c) && Counted(trace, c, m, n)
    decreases n
  {
    hide Next, ReceiptCount;
    assert n > 0;
    assert StepAt(p, trace, steps, n - 1);
    HeldCount(p, trace[n - 1], steps[n - 1], c);
    hide StepAt;
    if steps[n - 1] == CountStep(c) && trace[n - 1].coordinators[c].todo != [] {
      m := n - 1;
    } else {
      m := CountTaken(p, trace, steps, n - 1, c);
    }
  }

  lemma HeldCount(p: RecoveryPolicy, s: Sys, step: Step, c: nat)
    requires var t := Next(p, s, step);
             c in t.coordinators && t.coordinators[c].receipts.Some? && t.coordinators[c].todo != []
    ensures var t := Next(p, s, step);
            && c in s.coordinators
            && if step == CountStep(c) && s.coordinators[c].todo != []
               then t.coordinators[c] == Coordinator(s.coordinators[c].todo,
                                                     Some(ReceiptCount(s.db, s.coordinators[c].todo[0].runId)))
               else t.coordinators[c] == s.coordinators[c]
  {
    hide ApplyTo, Classify, ReceiptCount, RecoveryCandidates, CreateRun, ClaimNext, Paged, Terminated, Reserve, Settle, Decide;
    match step
    case DecideStep(k, now) =>
      if k in s.coordinators && s.coordinators[k].todo != [] && s.coordinators[k].receipts.Some? {
        DecideHolds(p, s, k, now, c);
      }
    case ReserveStep(e, id, name, tool, arguments) => ReserveFrame(s, e, id, name, tool, arguments);
    case SettleStep(e) => if e in s.executors && s.executors[e].Called? { SettleFrame(s, e); }
    case _ =>
  }

  /** After deciding, a coordinator holds no count; the others are as they were. */
  lemma DecideHolds(p: RecoveryPolicy, s: Sys, k: nat, now: Time, c: nat)
    requires k in s.coordinators && s.coordinators[k].todo != [] && s.coordinators[k].receipts.Some?
    ensures var t := Decide(p, s, k, now);
            c in t.coordinators && t.coordinators[c].receipts.Some? ==> c in s.coordinators && t.coordinators[c] == s.coordinators[c]
  {
    hide ApplyTo, Classify, RecoveryMove, Terminated;
  }

  /** The step is a coordinator's decision that puts the run back into the queue. */
  predicate RequeuesAt(trace: seq<Sys>, steps: seq<Step>, n: nat, c: nat, id: string)
    requires |trace| == |steps| + 1 && n < |steps|
  {
    && steps[n].DecideStep? && steps[n].coordinator == c
    && id in trace[n].db.runs && trace[n].db.runs[id].row.state == Running
    && id in trace[n + 1].db.runs && trace[n + 1].db.runs[id].row.state == Queued
  }

  lemma RequeueDecides(p: RecoveryPolicy, s: Sys, c: nat, now: Time, id: string)
    requires var t := Next(p, s, DecideStep(c, now));
             && id in s.db.runs && s.db.runs[id].row.state == Running
             && id in t.db.runs && t.db.runs[id].row.state == Queued
    ensures c in s.coordinators && s.coordinators[c].todo != [] && s.coordinators[c].receipts.Some?
    ensures var run := s.coordinators[c].todo[0];
            run.runId == id && Classify(p, run, s.coordinators[c].receipts.value).action == Requeue
  {
    hide Classify;
  }

  /** The exact condition under interleaving: the requeue acts on a count that some earlier
      step of the coordinator took and that was zero, and the requeued run has a receipt iff
      one was reserved after that count and before the decision. */
  lemma RequeuedHasReceiptIff(p: RecoveryPolicy, trace: seq<Sys>, steps: seq<Step>, n: nat, c: nat, id: string)
    returns (m: nat)
    requires RequeuesUnreceipted(p) && Behaviour(p, trace, steps) && n < |steps| && RequeuesAt(trace, steps, n, c, id)
    ensures m < n && steps[m] == CountStep(c) && Counted(trace, c, m, n)
    ensures trace[m].coordinators[c].todo[0].runId == id && !HasReceipt(trace[m].db, id)
    ensures HasReceipt(trace[n + 1].db, id) <==> ReservedBetween(trace, steps, m + 1, n, id)
  {
    hide *;
    ZeroCounted(p, trace, steps, n, c, id);
    m := CountTaken(p, trace, steps, n, c);
    CountedOnce(trace, c, m, n, id);
    NotReserving(trace, steps, m, n, c, id);
    ReceiptsSince(p, trace, steps, m, n + 1, id);
    BetweenSplit(trace, steps, m, n + 1, id);
    BetweenSplit(trace, steps, m + 1, n + 1, id);
  }

  lemma ZeroCounted(p: RecoveryPolicy, trace: seq<Sys>, steps: seq<Step>, n: nat, c: nat, id: string)
    requires RequeuesUnreceipted(p) && Behaviour(p, trace, steps) && n < |steps| && RequeuesAt(trace, steps, n, c, id)
    ensures |trace| == |steps| + 1 && c in trace[n].coordinators && trace[n].coordinators[c].todo != []
    ensures trace[n].coordinators[c].todo[0].runId == id && trace[n].coordinators[c].receipts == Some(0)
  {
    hide Next, Classify;
    assert StepAt(p, trace, steps, n);
    assert steps[n] == DecideStep(c, steps[n].now);
    RequeueDecides(p, trace[n], c, steps[n].now, id);
  }

  lemma CountedOnce(trace: seq<Sys>, c: nat, m: nat, n: nat, id: string)
    requires m < n < |trace| && Counted(trace, c, m, n)
    requires trace[n].coordinators[c].todo[0].runId == id && trace[n].coordinators[c].receipts == Some(0)
    ensures trace[m].coordinators[c].todo[0].runId == id && !HasReceipt(trace[m].db, id)
  {
    CountIsZeroIff(trace[m].db, id);
  }

  lemma NotReserving(trace: seq<Sys>, steps: seq<Step>, m: nat, n: nat, c: nat, id: string)
    requires |trace| == |steps| + 1 && m < n < |steps| && steps[m] == CountStep(c) && RequeuesAt(trace, steps, n, c, id)
    ensures !Reserves(trace[m], steps[m], id) && !Reserves(trace[n], steps[n], id)
  {
  }

  function Claimable(): Record {
    Fresh("r", "d", map[], 0.0)
  }

  function Abandoned1(): Record {
    Claimed(Claimable(), "w", 1.0, 0.0)
  }

  const Key := ActionKey("r", "s", "t", "a")

  function At0(): Sys { Start.(db := Start.db.(runs := map["r" := Claimable()])) }

  function At1(): Sys { Start.(db := Start.db.(runs := map["r" := Abandoned1()])) }

  function At2(): Sys { At1().(coordinators := map[0 := Coordinator([Abandoned1().row], None)]) }

  function At3(): Sys { At1().(coordinators := map[0 := Coordinator([Abandoned1().row], Some(0))]) }

  function At4(): Sys {
    At3().(db := At3().db.(receipts := map[Key := Receipt("r", ActionPending, None)]),
           executors := map[0 := Reserved(Key)])
  }

  lemma Creates()
    ensures Next(Default, Start, CreateStep("r", "d", None, map[], 0.0)) == At0()
  {
  }

  lemma Claims()
    ensures Next(Default, At0(), ClaimStep("w", 1.0, 0.0)) == At1()
  {
    assert QueuedIds(At0().db) == {"r"};
    assert Earliest(CreatedAt(At0().db), QueuedIds(At0().db)) == "r";
  }

  lemma Lists()
    ensures Next(Default, At1(), ListStep(0, 5.0)) == At2()
  {
    var db := At1().db;
    assert AbandonedIds(db, 5.0) == {"r"};
    assert Earliest(UpdatedAt(db), {"r"}) == "r";
    assert {"r"} - {"r"} == {};
    assert InOrder(UpdatedAt(db), {"r"}) == ["r"] + InOrder(UpdatedAt(db), {});
    assert RecoveryCandidates(db, 5.0) == [Abandoned1().row];
  }

  lemma Counts()
    ensures Next(Default, At2(), CountStep(0)) == At3()
  {
    assert ReceiptKeys(At2().db, "r") == {};
  }

  lemma ReservesOne()
    ensures Next(Default, At3(), ReserveStep(0, "r", "s", "t", "a")) == At4()
  {
  }

  /** Five steps after which a reconciliation requeues a run whose action is under way:
      list, count, and only then the reservation, before the compare-and-swap. */
  lemma LateReceiptIsMissed() returns (trace: seq<Sys>, steps: seq<Step>)
    ensures Behaviour(Default, trace, steps)
    ensures var s := trace[|steps|];
            && "r" in s.db.runs && s.db.runs["r"].row.state == Queued && s.db.runs["r"].row.recoveryAttempts == 1
            && Key in s.db.receipts && s.db.receipts[Key] == Receipt("r", ActionPending, None)
  {
    Creates();
    Claims();
    Lists();
    Counts();
    ReservesOne();
    var last := Next(Default, At4(), DecideStep(0, 5.0));
    steps := [CreateStep("r", "d", None, map[], 0.0), ClaimStep("w", 1.0, 0.0), ListStep(0, 5.0), CountStep(0),
              ReserveStep(0, "r", "s", "t", "a"), DecideStep(0, 5.0)];
    trace := [Start, At0(), At1(), At2(), At3(), At4(), last];
    forall i | 0 <= i < |steps| ensures StepAt(Default, trace, steps, i) {
      assert i == 0 || i == 1 || i == 2 || i == 3 || i == 4 || i == 5;
    }
    Requeues0();
  }

  lemma Trimmed(s: string)
    requires s != [] && !IsSpace(s[0]) && !IsSpace(s[|s| - 1])
    ensures Strip(s) == s && !Blank(s)
  {
  }

  lemma Requeues0()
    ensures var s := Next(Default, At4(), DecideStep(0, 5.0));
            && "r" in s.db.runs && s.db.runs["r"].row.state == Queued && s.db.runs["r"].row.recoveryAttempts == 1
            && Key in s.db.receipts && s.db.receipts[Key] == Receipt("r", ActionPending, None)
  {
    var run := Abandoned1().row;
    var d := Classify(Default, run, 0);
    assert d.action == Requeue;
    var op := RecoveryMove(run, d, 5.0);
    Trimmed(d.reason);
    Trimmed(op.actor);
    hide Strip, Blank;
    var (after, error) := ApplyTo(At4().db, "r", op);
    assert error == None && after.runs["r"] == Apply(Abandoned1(), op).value;
    assert Next(Default, At4(), DecideStep(0, 5.0)) == Decide(Default, At4(), 0, 5.0);
  }

  // ---- a failure that cannot be recorded ----

  function Reserved1(): Sys {
    At0().(db := At0().db.(receipts := map[Key := Receipt("r", ActionPending, None)]), executors := map[0 := Reserved(Key)])
  }

  function Called1(): Sys {
    Reserved1().(executors := map[0 := Called(Key, Threw("ValueError", ""))], calls := map[Key := 1])
  }

  function Left1(): Sys {
    Called1().(executors := map[])
  }

  lemma ReservesFirst()
    ensures Next(Default, At0(), ReserveStep(0, "r", "s", "t", "a")) == Reserved1()
  {
  }

  lemma Throws()
    ensures Next(Default, Reserved1(), CallStep(0, Threw("ValueError", ""))) == Called1()
  {
  }

  lemma Leaves()
    ensures Next(Default, Called1(), SettleStep(0)) == Left1()
  {
    assert Blank("");
    assert Called1().executors - {0} == map[];
  }

  /** A callback that raises an exception without a message: its receipt stays pending, and
      belongs to nobody. */
  lemma BlankMessageOrphans() returns (trace: seq<Sys>, steps: seq<Step>)
    ensures Behaviour(Default, trace, steps)
    ensures |steps| == 4 && steps[2] == CallStep(0, Threw("ValueError", "")) && steps[3] == SettleStep(0)
    ensures Orphaned(trace[4], Key) && CallCount(trace[4], Key) == 1
  {
    Creates();
    ReservesFirst();
    Throws();
    Leaves();
    steps := [CreateStep("r", "d", None, map[], 0.0), ReserveStep(0, "r", "s", "t", "a"),
              CallStep(0, Threw("ValueError", "")), SettleStep(0)];
    trace := [Start, At0(), Reserved1(), Called1(), Left1()];
    forall i | 0 <= i < |steps| ensures StepAt(Default, trace, steps, i) {
      assert i == 0 || i == 1 || i == 2 || i == 3;
    }
  }
}
