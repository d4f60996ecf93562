// What each operation of the run store promises, said of the fields it reads and writes: when
// it succeeds, with which error it fails, and all that it changes. And who may do what to a
// run when everybody does it at once.

module DurableEffects {
  import opened Common
  import opened DurableRuns
  import opened DurableHistory
  import opened DurableTables
  import opened DurableSystem
  import opened DurableSafety

  // ---- the transition table ----

  /** The table read by its targets: every live run can fail, stop or need recovery; a run starts
      only from the queue; whatever else happens to a run happens while it runs. */
  lemma EdgeIff(a: RunState, b: RunState)
    ensures b in AllowedNext(a) <==>
              && a in {Queued, Running, Cancelling}
              && (match b
                  case Failed => true
                  case Stopped => true
                  case RecoveryRequired => true
                  case Running => a == Queued
                  case _ => a == Running)
    ensures Terminal(a) <==> a !in {Queued, Running, Cancelling}
  {
  }

  /** A result other than failing, stopping or recovery is reached from running alone. */
  lemma OutcomesNeedRunning(log: seq<LogRow>, i: nat)
    requires Chain(log) && 0 < i < |log| && log[i].to in {Completed, Blocked, BudgetExhausted, Cancelling, Queued}
    ensures log[i - 1].to == Running
    ensures i >= 2 && log[i - 2].to == Queued
  {
    assert log[i].to in AllowedNext(log[i - 1].to);
    assert log[0].to == Queued;
    if i >= 2 { assert log[i - 1].to in AllowedNext(log[i - 2].to); }
  }

  // ---- operations on one run ----

  /** The run enters a state: one version on, one entry in its log, nothing of its identity lost. */
  ghost predicate Enters(r: Record, q: Record, next: RunState, reason: string, actor: string, now: Time) {
    && q.row.state == next && q.row.version == r.row.version + 1 && q.row.updatedAt == now
    && q.row.terminalReason == (if next in {Queued, Running, Cancelling} then None else Some(reason))
    && q.row.runId == r.row.runId && q.row.digest == r.row.digest && q.row.createdAt == r.row.createdAt
    && q.log == r.log + [LogRow(Some(r.row.state), next, r.row.version + 1, reason, actor, now)]
  }

  /** A compare-and-swap succeeds iff the edge is allowed, it is explained, and both the expected
      state and the expected version are current; each of the three has its own error, in that order. */
  lemma TransitionIff(r: Record, op: RunOp)
    requires op.Transition?
    ensures var q := Apply(r, op);
            var edge := op.next in AllowedNext(op.expected);
            var explained := Strip(op.reason) != "" && Strip(op.actor) != "";
            && (q.Ok? <==> edge && explained && r.row.state == op.expected && r.row.version == op.version)
            && (q == Err(InvalidTransition) <==> !edge)
            && (q == Err(ValueError) <==> edge && !explained)
            && (q == Err(CompareAndSwap) <==>
                  edge && explained && !(r.row.state == op.expected && r.row.version == op.version))
  {
  }

  lemma TransitionEffect(r: Record, op: RunOp)
    requires op.Transition? && Apply(r, op).Ok?
    ensures var q := Apply(r, op).value;
            && Enters(r, q, op.next, Strip(op.reason), Strip(op.actor), op.now)
            && q.row.recoveryAttempts == r.row.recoveryAttempts + (if op.bump then 1 else 0)
            && q.lease == (if op.next in {Running, Cancelling} then r.lease else None)
            && q.events == r.events && q.row.metadata == r.row.metadata
  {
  }

  lemma ClaimEffect(r: Record, worker: string, seconds: Time, now: Time)
    requires r.row.state == Queued && r.row.terminalReason.None?
    ensures var q := Claimed(r, worker, seconds, now);
            && Enters(r, q, Running, "worker_claimed", worker, now)
            && q.lease == Some(Lease(worker, now + seconds, r.row.version + 1))
            && q.row.recoveryAttempts == r.row.recoveryAttempts && q.row.metadata == r.row.metadata && q.events == r.events
  {
  }

  /** Only the holder renews, at the current version of a live run. */
  lemma RenewIff(r: Record, worker: string, version: nat, seconds: Time, now: Time)
    ensures var q := Apply(r, Renew(worker, version, seconds, now));
            && (q == Err(ValueError) <==> Strip(worker) == "" || seconds <= 0.0)
            && (q.Ok? <==>
                  && Strip(worker) != "" && seconds > 0.0
                  && r.row.version == version && r.row.state in {Running, Cancelling}
                  && r.lease.Some? && r.lease.value.worker == Strip(worker))
            && (q.Err? && q.error != ValueError ==> q.error == LeaseConflict)
            && (q.Ok? ==> q.value == r.(lease := Some(Lease(Strip(worker), now + seconds, version))))
  {
  }

  /** Releasing drops the lease of that worker and of no other. */
  lemma ReleaseEffect(r: Record, worker: string)
    ensures var q := Apply(r, Release(worker));
            && (q.Ok? <==> Strip(worker) != "") && (q.Err? ==> q.error == ValueError)
            && (q.Ok? ==> q.value == r.(lease := q.value.lease))
            && (q.Ok? && r.lease.Some? && r.lease.value.worker == Strip(worker) ==> q.value.lease.None?)
            && (q.Ok? && !(r.lease.Some? && r.lease.value.worker == Strip(worker)) ==> q.value.lease == r.lease)
  {
  }

  /** The event goes to the end, under the next number, with its type cut at 160 characters. */
  lemma AppendEffect(r: Record, name: string, payload: Metadata, terminal: bool, now: Time)
    requires Numbered(r.events)
    ensures var q := Apply(r, Append(name, payload, terminal, now));
            && (q.Ok? <==> Strip(name) != "") && (q.Err? ==> q.error == ValueError)
            && (q.Ok? ==>
                  && |q.value.events| == |r.events| + 1 && q.value == r.(events := r.events + [q.value.events[|r.events|]])
                  && var e := q.value.events[|r.events|];
                     && e.sequence == |r.events| + 1 && e.payload == payload && e.terminal == terminal && e.at == now
                     && e.eventType.NamedEvent? && e.eventType.name <= Strip(name)
                     && |e.eventType.name| == (if |Strip(name)| <= 160 then |Strip(name)| else 160))
  {
    NumberedMax(r.events);
  }

  /** A patch wins over what is stored and changes nothing else. */
  lemma MergeEffect(r: Record, patch: Metadata, now: Time)
    ensures var q := Apply(r, Merge(patch, now));
            && q.Ok?
            && q.value == r.(row := r.row.(metadata := q.value.row.metadata, updatedAt := now))
            && (forall f :: f in q.value.row.metadata <==> f in patch || f in r.row.metadata)
            && (forall f :: f in q.value.row.metadata ==>
                  q.value.row.metadata[f] == if f in patch then patch[f] else r.row.metadata[f])
  {
  }

  /** A cancellation is refused for a run that has ended, does nothing to one that is cancelling,
      and otherwise takes effect. */
  lemma CancelIff(r: Record, reason: string, actor: string, now: Time)
    ensures var q := Apply(r, RunOp.Cancel(reason, actor, now));
            var explained := Strip(reason) != "" && Strip(actor) != "";
            && (q == Err(ValueError) <==> !explained)
            && (q == Err(InvalidTransition) <==> explained && r.row.state !in {Queued, Running, Cancelling})
            && (q.Ok? <==> explained && r.row.state in {Queued, Running, Cancelling})
            && (q.Ok? && r.row.state == Cancelling ==> q.value == r)
  {
  }

  /** What a cancellation writes: a queued run stops at once and says so, a running one is asked
      to stop and keeps its lease. */
  lemma CancelEffect(r: Record, reason: string, actor: string, now: Time)
    requires Numbered(r.events) && r.row.state in {Queued, Running} && Apply(r, RunOp.Cancel(reason, actor, now)).Ok?
    ensures var q := Apply(r, RunOp.Cancel(reason, actor, now)).value;
            var why, n := Text(Strip(reason)), |r.events|;
            var asked := Event(n + 1, CancelRequestedEvent, map[Reason := why], false, now);
            && Enters(r, q, if r.row.state == Queued then Stopped else Cancelling, Strip(reason), Strip(actor), now)
            && q.row.metadata == r.row.metadata[StopReason := why] && q.row.recoveryAttempts == r.row.recoveryAttempts
            && (r.row.state == Running ==> q.lease == r.lease && q.events == r.events + [asked])
            && (r.row.state == Queued ==>
                  && q.lease.None?
                  && q.events == r.events + [asked, Event(n + 2, StoppedEvent, map[Reason := why, Phase := Text("queued")], true, now)])
  {
    NumberedMax(r.events);
    NextNumber(r.events, Event(|r.events| + 1, CancelRequestedEvent, map[Reason := Text(Strip(reason))], false, now));
    hide MaxSequence, Numbered, Strip;
  }

  lemma NextNumber(events: seq<Event>, e: Event)
    requires Numbered(events) && e.sequence == |events| + 1
    ensures MaxSequence(events + [e]) == |events| + 1
  {
    NumberedMax(events);
    assert (events + [e])[..|events|] == events;
  }

  /** The reason under which a run is finalized: its own while it runs, the stored one of the
      cancellation when there is one. */
  ghost function ReasonOf(r: Record, reason: string): string {
    if r.row.state == Cancelling && StopReason in r.row.metadata && r.row.metadata[StopReason].Text?
       && Strip(r.row.metadata[StopReason].text) != ""
    then Strip(r.row.metadata[StopReason].text) else Strip(reason)
  }

  lemma FinalizeIff(r: Record, op: RunOp)
    requires op.Finalize? && LeaseOk(r)
    ensures var q := Apply(r, op);
            var formed := Strip(op.worker) != "" && Strip(op.reason) != "" && Strip(op.eventType) != ""
                          && op.requested !in {Queued, Running, Cancelling};
            var live := r.row.state in {Queued, Running, Cancelling};
            var owner := r.lease.Some? && r.lease.value.worker == Strip(op.worker) && op.now < r.lease.value.expiresAt;
            && (q == Err(ValueError) <==> !formed)
            && (q == Err(LeaseConflict) <==> formed && live && !owner)
            && (q.Ok? <==> formed && (!live || owner))
            && (formed && !live ==> q == Ok(r))
  {
    FinalizeEdgeAlwaysAllowed(r, op);
    EdgeIff(r.row.state, Failed);
    EdgeIff(op.requested, Failed);
    hide AllowedNext, Terminal, Closed, FinalMetadata, FinalReason, Strip;
    var Finalize(w, s, why, p, e, d, t) := op;
    assert Apply(r, op) == Finalized(r, w, s, why, p, e, d, t);
    if LiveOwner(r, w, t) { assert r.row.state in {Running, Cancelling}; }
  }

  /** All that a finalization by the live owner writes. */
  lemma FinalizeWritesAll(r: Record, op: RunOp)
    requires op.Finalize? && LeaseOk(r) && Numbered(r.events) && Apply(r, op).Ok? && r.row.state in {Queued, Running, Cancelling}
    ensures var q := Apply(r, op).value;
            var why := ReasonOf(r, op.reason);
            var state := if r.row.state == Cancelling then (if why == "run_timeout" then Failed else Stopped) else op.requested;
            && Enters(r, q, state, why, Strip(op.worker), op.now) && q.lease.None?
            && q.row.recoveryAttempts == r.row.recoveryAttempts
            && |q.events| == |r.events| + 1 && r.events <= q.events
            && var e := q.events[|r.events|];
               && e.sequence == |r.events| + 1 && e.terminal && e.at == op.now
               && e.eventType.NamedEvent? && e.eventType.name <= Strip(op.eventType)
               && |e.eventType.name| == (if |Strip(op.eventType)| <= 160 then |Strip(op.eventType)| else 160)
               && e.payload == op.payload[Status := StateName(state)][StopReason := Text(why)]
  {
    NumberedMax(r.events);
    var Finalize(w, s, why, p, e, d, t) := op;
    assert Apply(r, op) == Finalized(r, w, s, why, p, e, d, t);
    assert FinalReason(r, op.reason) == ReasonOf(r, op.reason);
  }

  lemma MetadataIs(r: Record, op: RunOp)
    requires op.Finalize? && Apply(r, op).Ok? && r.row.state in {Queued, Running, Cancelling}
    ensures Apply(r, op).value.row.metadata
            == WithTimeout((r.row.metadata + op.patch)[StopReason := Text(ReasonOf(r, op.reason))], ReasonOf(r, op.reason))
  {
    hide WithTimeout, Strip;
    var Finalize(w, s, why, p, e, d, t) := op;
    assert Apply(r, op) == Finalized(r, w, s, why, p, e, d, t);
  }

  /** One field of the metadata a finalization leaves: the patch over what was stored, the reason,
      and the timeout error iff the reason is the timeout. */
  ghost predicate LeftBehind(m: Metadata, was: Metadata, patch: Metadata, why: string, f: Field) {
    && StopReason in m && m[StopReason] == Text(why)
    && (f != StopReason && !(f == ErrorField && why == "run_timeout") ==>
          && (f in m <==> f in patch || f in was)
          && (f in m ==> m[f] == if f in patch then patch[f] else was[f]))
    && (why == "run_timeout" ==>
          && ErrorField in m && m[ErrorField].Object? && Code in m[ErrorField].fields
          && m[ErrorField].fields[Code] == Text("run_timeout"))
  }

  lemma LaidOver(was: Metadata, patch: Metadata, why: string, f: Field)
    ensures LeftBehind(WithTimeout((was + patch)[StopReason := Text(why)], why), was, patch, why, f)
  {
  }

  lemma FinalizeMetadata(r: Record, op: RunOp, f: Field)
    requires op.Finalize? && LeaseOk(r) && Apply(r, op).Ok? && r.row.state in {Queued, Running, Cancelling}
    ensures LeftBehind(Apply(r, op).value.row.metadata, r.row.metadata, op.patch, ReasonOf(r, op.reason), f)
  {
    hide *;
    MetadataIs(r, op);
    LaidOver(r.row.metadata, op.patch, ReasonOf(r, op.reason), f);
  }

  /** An error already recorded under the timeout's code is kept; any other gives way to it. */
  lemma FinalizeTimeout(r: Record, op: RunOp)
    requires op.Finalize? && LeaseOk(r) && Apply(r, op).Ok? && r.row.state in {Queued, Running, Cancelling}
    requires ReasonOf(r, op.reason) == "run_timeout"
    ensures var m, was := Apply(r, op).value.row.metadata, r.row.metadata + op.patch;
            var named := ErrorField in was && was[ErrorField].Object? && Code in was[ErrorField].fields
                         && was[ErrorField].fields[Code] == Text("run_timeout");
            && ErrorField in m
            && m[ErrorField] == if named then was[ErrorField]
                                else Object(map[Code := Text("run_timeout"), Message := Text("run exceeded whole-run timeout")])
  {
    var Finalize(w, s, why, p, e, d, t) := op;
    assert Apply(r, op) == Finalized(r, w, s, why, p, e, d, t);
    assert FinalReason(r, op.reason) == ReasonOf(r, op.reason);
    MetadataIs(r, op);
    hide Apply, Finalized, FinalReason, ReasonOf, Strip;
  }

  // ---- the lease of a run, under any interleaving ----

  /** What one operation can do to a lease: keep it, drop it, or extend it for its own holder. */
  lemma LeaseUnderOp(r: Record, op: RunOp)
    requires Apply(r, op).Ok?
    ensures var q := Apply(r, op).value;
            || q.lease == r.lease
            || q.lease.None?
            || (op.Renew? && r.lease.Some? && q.lease.Some? && q.lease.value.worker == r.lease.value.worker == Strip(op.worker)
                && q.lease.value.expiresAt == op.now + op.seconds && q.lease.value.runVersion == r.row.version && q.row == r.row)
  {
    match op
    case Renew(w, v, s, t) => RenewIff(r, w, v, s, t);
    case Release(w) => ReleaseEffect(r, w);
    case Transition(_, _, _, _, _, _, _) => TransitionEffect(r, op);
    case _ =>
  }

  /** The lease of one run between two adjacent moments. */
  ghost predicate LeaseMoves(s: Sys, t: Sys, step: Step, id: string)
    requires id in s.db.runs && id in t.db.runs
  {
    var (a, b) := (s.db.runs[id], t.db.runs[id]);
    || b.lease == a.lease
    || b.lease.None?
    || (&& step.RunStep? && step.runId == id && step.op.Renew? && a.lease.Some? && b.lease.Some?
        && b.lease.value.worker == a.lease.value.worker == Strip(step.op.worker)
        && b.lease.value.expiresAt == step.op.now + step.op.seconds && b.row == a.row)
    || (&& step.ClaimStep? && a.row.state == Queued && b.row.state == Running
        && b.lease == Some(Lease(Strip(step.worker), step.now + step.seconds, b.row.version)))
  }

  lemma RunMovesLease(p: RecoveryPolicy, s: Sys, o: string, op: RunOp, id: string)
    requires id in s.db.runs
    ensures var t := Next(p, s, RunStep(o, op)); id in t.db.runs && LeaseMoves(s, t, RunStep(o, op), id)
  {
    if o in s.db.runs && Apply(s.db.runs[o], op).Ok? { LeaseUnderOp(s.db.runs[o], op); }
    hide Apply, Terminated;
  }

  lemma ClaimMovesLease(p: RecoveryPolicy, s: Sys, worker: string, seconds: Time, now: Time, id: string)
    requires id in s.db.runs
    ensures var t := Next(p, s, ClaimStep(worker, seconds, now));
            id in t.db.runs && LeaseMoves(s, t, ClaimStep(worker, seconds, now), id)
  {
    hide Earliest, Strip, CreatedAt, QueuedIds;
    if !(Blank(worker) || seconds <= 0.0) && QueuedIds(s.db) != {} {
      EarliestIsQueued(s.db);
    }
  }

  lemma EarliestIsQueued(db: Db)
    requires QueuedIds(db) != {}
    ensures QueuedIds(db) <= CreatedAt(db).Keys
    ensures var id := Earliest(CreatedAt(db), QueuedIds(db)); id in db.runs && db.runs[id].row.state == Queued
  {
    assert Earliest(CreatedAt(db), QueuedIds(db)) in QueuedIds(db);
  }

  lemma DecideMovesLease(p: RecoveryPolicy, s: Sys, c: nat, now: Time, id: string)
    requires id in s.db.runs && c in s.coordinators && s.coordinators[c].todo != [] && s.coordinators[c].receipts.Some?
    ensures var t := Decide(p, s, c, now);
            id in t.db.runs && (t.db.runs[id].lease == s.db.runs[id].lease || t.db.runs[id].lease.None?)
  {
    DecideDb(p, s, c, now);
    var run := s.coordinators[c].todo[0];
    var op := RecoveryMove(run, Classify(p, run, s.coordinators[c].receipts.value), now);
    assert op.Transition?;
    if run.runId in s.db.runs && Apply(s.db.runs[run.runId], op).Ok? { TransitionEffect(s.db.runs[run.runId], op); }
    hide Decide, Apply, RecoveryMove, Classify;
  }

  /** A lease changes hands only through the queue: between two adjacent moments it is kept,
      dropped, extended by its own holder, or given to whoever claims the queued run. */
  lemma LeaseStep(p: RecoveryPolicy, s: Sys, step: Step, id: string)
    requires id in s.db.runs
    ensures id in Next(p, s, step).db.runs && LeaseMoves(s, Next(p, s, step), step, id)
  {
    match step
    case RunStep(o, op) => RunMovesLease(p, s, o, op, id);
    case ClaimStep(worker, seconds, now) => ClaimMovesLease(p, s, worker, seconds, now, id);
    case DecideStep(c, now) =>
      hide Decide;
      if c in s.coordinators && s.coordinators[c].todo != [] && s.coordinators[c].receipts.Some? {
        DecideMovesLease(p, s, c, now, id);
      }
    case CreateStep(o, digest, key, metadata, now) =>
      hide CreateRun, Inserted;
      CreateKeepsRun(s.db, o, digest, key, metadata, now, id);
    case _ =>
      OthersKeepTables(p, s, step);
      hide Next;
  }

  lemma CreateKeepsRun(db: Db, o: string, digest: string, key: Option<string>, metadata: Metadata, now: Time, id: string)
    requires id in db.runs
    ensures var after := CreateRun(db, o, digest, key, metadata, now).0; id in after.runs && after.runs[id] == db.runs[id]
  {
    CreateRunInserts(db, o, digest, key, metadata, now);
    hide CreateRun;
  }

  /** A worker that sees its run leased to somebody else later has lost it to a claim of the
      queued run in between; nobody takes over a lease that is held. */
  lemma {:induction false} LeaseHandover(p: RecoveryPolicy, trace: seq<Sys>, steps: seq<Step>, m: nat, n: nat, id: string)
    returns (i: nat)
    requires Behaviour(p, trace, steps) && m <= n < |trace|
    requires id in trace[m].db.runs && trace[m].db.runs[id].lease.Some?
    requires id in trace[n].db.runs && trace[n].db.runs[id].lease.Some?
    requires trace[n].db.runs[id].lease.value.worker != trace[m].db.runs[id].lease.value.worker
    ensures m <= i < n && steps[i].ClaimStep? && id in trace[i].db.runs && trace[i].db.runs[id].row.state == Queued
    ensures trace[n].db.runs[id].lease.value.worker == Strip(steps[i].worker)
    decreases n
  {
    hide Next;
    assert n > m;
    HistoryOnlyGrows(p, trace, steps, m, n - 1);
    assert StepAt(p, trace, steps, n - 1);
    LeaseStep(p, trace[n - 1], steps[n - 1], id);
    var a, b := trace[n - 1].db.runs[id], trace[n].db.runs[id];
    if a.lease.Some? && a.lease.value.worker == b.lease.value.worker {
      i := LeaseHandover(p, trace, steps, m, n - 1, id);
    } else {
      i := n - 1;
    }
  }
}
