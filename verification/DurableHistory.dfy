// What the transition log of one run can and cannot contain: terminal states absorb,
// cancellation wins, recovery bounds the length of the log, and finalization is reserved
// to the live owner of the lease.

module DurableHistory {
  import opened Common
  import opened Lists
  import opened DurableRuns

  /** How often the log takes the edge running -> queued. */
  function Requeues(log: seq<LogRow>): nat {
    if |log| <= 1 then 0
    else Requeues(log[..|log| - 1])
         + if log[|log| - 2].to == Running && log[|log| - 1].to == Queued then 1 else 0
  }

  function Level(s: RunState): nat {
    match s case Queued => 0 case Running => 1 case Cancelling => 2 case _ => 3
  }

  lemma ChainPrefix(log: seq<LogRow>, n: nat)
    requires Chain(log) && 0 < n <= |log|
    ensures Chain(log[..n])
  {
  }

  /** Without requeues a run makes at most three moves; each requeue buys two more. */
  lemma {:induction false} LogLength(log: seq<LogRow>)
    requires Chain(log)
    ensures |log| - 1 <= Level(log[|log| - 1].to) + 2 * Requeues(log)
  {
    if |log| > 1 {
      ChainPrefix(log, |log| - 1);
      LogLength(log[..|log| - 1]);
    }
  }

  lemma {:induction false} RequeuesMonotone(log: seq<LogRow>, n: nat)
    requires 0 < n <= |log|
    ensures Requeues(log[..n]) <= Requeues(log)
  {
    if n < |log| {
      RequeuesMonotone(log[..|log| - 1], n);
      assert log[..|log| - 1][..n] == log[..n];
    } else {
      assert log[..n] == log;
    }
  }

  /** A terminal state is the last entry of its log. */
  lemma TerminalIsLast(log: seq<LogRow>, i: nat)
    requires Chain(log) && i < |log| && Terminal(log[i].to)
    ensures i == |log| - 1
  {
    assert i + 1 < |log| ==> log[i + 1].to in AllowedNext(log[i].to);
  }

  /** Cancellation wins: whatever follows it, a run that entered cancelling never ends
      completed, blocked or out of budget, and never runs again. */
  lemma CancellationWins(log: seq<LogRow>, i: nat, j: nat)
    requires Chain(log) && i < j < |log| && log[i].to == Cancelling
    ensures log[j].to in {Stopped, Failed, RecoveryRequired} && j == i + 1 == |log| - 1
  {
    assert log[i + 1].to in AllowedNext(log[i].to);
    TerminalIsLast(log, i + 1);
  }

  lemma CancelLog(r: Record, op: RunOp)
    requires op.Cancel? && Apply(r, op).Ok?
    ensures r.log <= Apply(r, op).value.log
  {
  }

  /** History is append-only, and an operation leaves a terminal run's log and outcome alone. */
  lemma HistoryAppendOnly(r: Record, op: RunOp)
    requires RecordOk(r) && Apply(r, op).Ok?
    ensures var q := Apply(r, op).value;
            && r.log <= q.log && r.events <= q.events
            && (Terminal(r.row.state) ==>
                  q.log == r.log && q.row.state == r.row.state && q.row.version == r.row.version
                  && q.row.terminalReason == r.row.terminalReason)
  {
    if op.Cancel? { CancelLog(r, op); }
  }

  lemma RequeuesPush(log: seq<LogRow>, row: LogRow)
    requires log != []
    ensures Requeues(log + [row])
            == Requeues(log) + if log[|log| - 1].to == Running && row.to == Queued then 1 else 0
  {
    assert (log + [row])[..|log|] == log;
  }

  predicate IsRequeue(op: RunOp) {
    op.Transition? && op.expected == Running && op.next == Queued
  }

  lemma RequeueCountTransition(r: Record, op: RunOp)
    requires r.log != [] && r.row.state == r.log[|r.log| - 1].to
    requires op.Transition? && Apply(r, op).Ok?
    ensures var q := Apply(r, op).value;
            && Requeues(q.log) == Requeues(r.log) + (if IsRequeue(op) then 1 else 0)
            && q.row.recoveryAttempts == r.row.recoveryAttempts + (if op.bump then 1 else 0)
  {
    RequeuesPush(r.log, Apply(r, op).value.log[|r.log|]);
  }

  /** At most one log entry is added, it does not lead to queued, and recovery is not counted. */
  ghost predicate QuietStep(r: Record, q: Record) {
    && q.row.recoveryAttempts == r.row.recoveryAttempts
    && (q.log == r.log
        || (q.log != [] && q.log == r.log + [q.log[|q.log| - 1]] && q.log[|q.log| - 1].to != Queued))
  }

  lemma CancelQuiet(r: Record, reason: string, actor: string, now: Time)
    requires CancelRequested(r, reason, actor, now).Ok?
    ensures QuietStep(r, CancelRequested(r, reason, actor, now).value)
  {
  }

  /** Only a requeue adds a running -> queued edge, and only a bumped transition counts it. */
  lemma RequeueCount(r: Record, op: RunOp)
    requires RecordOk(r) && Apply(r, op).Ok?
    ensures var q := Apply(r, op).value;
            && Requeues(q.log) == Requeues(r.log) + (if IsRequeue(op) then 1 else 0)
            && q.row.recoveryAttempts == r.row.recoveryAttempts + (if op.Transition? && op.bump then 1 else 0)
  {
    match op
    case Transition(_, _, _, _, _, _, _) => RequeueCountTransition(r, op);
    case Cancel(why, who, t) =>
      CancelQuiet(r, why, who, t);
    case _ =>
  }

  // ---- finalization ----

  /** In a sound store the disallowed-edge branch of finalize_run cannot be taken: a lease
      exists only where every final state it computes is allowed. */
  lemma FinalizeEdgeAlwaysAllowed(r: Record, op: RunOp)
    requires LeaseOk(r) && op.Finalize?
    ensures Apply(r, op) != Err(InvalidTransition)
  {
    if LiveOwner(r, op.worker, op.now) && Terminal(op.requested) {
      assert FinalState(r, op.requested, op.reason) in AllowedNext(r.row.state);
    }
  }

  ghost predicate WellFormedFinalize(op: RunOp) {
    op.Finalize? && !Blank(op.worker) && !Blank(op.reason) && !Blank(op.eventType) && Terminal(op.requested)
  }

  /** finalize_run is refused exactly when a live run's lease is not the caller's or expired;
      on a terminal run it changes nothing. */
  lemma FinalizeGuard(r: Record, op: RunOp)
    requires LeaseOk(r) && WellFormedFinalize(op)
    ensures Terminal(r.row.state) ==> Apply(r, op) == Ok(r)
    ensures !Terminal(r.row.state) ==>
              (Apply(r, op).Ok? <==> LiveOwner(r, op.worker, op.now))
              && (Apply(r, op).Err? ==> Apply(r, op) == Err(LeaseConflict))
  {
    FinalizeEdgeAlwaysAllowed(r, op);
  }

  /** A live owner's finalization makes the run terminal, drops the lease and writes one log
      entry and one terminal event. A cancelled run ends stopped or failed, whatever result
      the worker brings. */
  lemma FinalizeEffect(r: Record, op: RunOp)
    requires LeaseOk(r) && WellFormedFinalize(op)
    requires !Terminal(r.row.state) && LiveOwner(r, op.worker, op.now)
    ensures Apply(r, op).Ok?
    ensures var q := Apply(r, op).value;
            && Terminal(q.row.state) && q.lease == None
            && |q.log| == |r.log| + 1 && |q.events| == |r.events| + 1
            && q.events[|r.events|].terminal && q.log[|r.log|].actor == Strip(op.worker)
            && q.row.terminalReason == Some(FinalReason(r, op.reason))
            && (r.row.state == Running ==> q.row.state == op.requested && FinalReason(r, op.reason) == Strip(op.reason))
            && (r.row.state == Cancelling ==>
                  q.row.state == (if FinalReason(r, op.reason) == "run_timeout" then Failed else Stopped))
  {
    FinalizeGuard(r, op);
  }

  lemma CancelRunning(r: Record, reason: string, actor: string, now: Time)
    requires r.row.state == Running && !Blank(reason) && !Blank(actor)
    ensures CancelRequested(r, reason, actor, now).Ok?
    ensures var c := CancelRequested(r, reason, actor, now).value;
            && c.row.state == Cancelling && c.lease == r.lease && |c.log| == |r.log| + 1
            && StopReason in c.row.metadata && c.row.metadata[StopReason] == Text(Strip(reason))
            && c.row.version == r.row.version + 1
  {
  }

  lemma FinalizeCancelled(c: Record, op: RunOp, why: string)
    requires LeaseOk(c) && c.row.state == Cancelling && WellFormedFinalize(op) && LiveOwner(c, op.worker, op.now)
    requires StopReason in c.row.metadata && c.row.metadata[StopReason] == Text(why)
    requires why != [] && Strip(why) == why
    ensures Apply(c, op).Ok?
    ensures var q := Apply(c, op).value;
            && q.row.state == (if why == "run_timeout" then Failed else Stopped)
            && q.row.terminalReason == Some(why)
  {
    assert FinalReason(c, op.reason) == why;
    FinalizeEffect(c, op);
  }

  /** A cancellation that reaches a running run is what a later finalization by the same
      worker reports, whatever state and reason that worker asks for. */
  lemma CancelThenFinalize(r: Record, cancel: RunOp, op: RunOp)
    requires LeaseOk(r) && r.row.state == Running
    requires cancel.Cancel? && !Blank(cancel.reason) && !Blank(cancel.actor)
    requires WellFormedFinalize(op) && LiveOwner(r, op.worker, op.now)
    ensures Apply(r, cancel).Ok? && Apply(Apply(r, cancel).value, op).Ok?
    ensures var q := Apply(Apply(r, cancel).value, op).value;
            && q.row.state == (if Strip(cancel.reason) == "run_timeout" then Failed else Stopped)
            && q.row.terminalReason == Some(Strip(cancel.reason))
  {
    var Cancel(reason, actor, now) := cancel;
    CancelRunning(r, reason, actor, now);
    StripTwice(reason);
    FinalizeCancelled(CancelRequested(r, reason, actor, now).value, op, Strip(reason));
  }

  // ---- terminal events ----

  function TerminalEvents(events: seq<Event>): nat {
    if events == [] then 0
    else TerminalEvents(events[..|events| - 1]) + if events[|events| - 1].terminal then 1 else 0
  }

  lemma TerminalEventsAppend(events: seq<Event>, e: Event)
    ensures TerminalEvents(events + [e]) == TerminalEvents(events) + if e.terminal then 1 else 0
  {
    assert (events + [e])[..|events|] == events;
  }

  lemma TerminalEventsCancel(r: Record, op: RunOp)
    requires RecordOk(r) && op.Cancel? && Apply(r, op).Ok?
    ensures var q := Apply(r, op).value;
            TerminalEvents(q.events) == TerminalEvents(r.events)
                                        + if !Terminal(r.row.state) && Terminal(q.row.state) then 1 else 0
  {
    hide TerminalEvents, RecordOk;
    if r.row.state != Cancelling {
      var q := Apply(r, op).value;
      var e := q.events[|r.events|];
      TerminalEventsAppend(r.events, e);
      if r.row.state == Queued {
        TerminalEventsAppend(r.events + [e], q.events[|r.events| + 1]);
        assert q.events == r.events + [e] + [q.events[|r.events| + 1]];
      } else {
        assert q.events == r.events + [e];
      }
    }
  }

  /** A terminal event is written exactly with a terminating cancel or finalize. */
  lemma TerminalEventsStep(r: Record, op: RunOp)
    requires RecordOk(r) && Apply(r, op).Ok? && !(op.Append? && op.terminal)
    ensures var q := Apply(r, op).value;
            TerminalEvents(q.events) == TerminalEvents(r.events)
              + if !op.Transition? && !Terminal(r.row.state) && Terminal(q.row.state) then 1 else 0
  {
    var q := Apply(r, op).value;
    if op.Cancel? {
      TerminalEventsCancel(r, op);
    } else if |q.events| == |r.events| + 1 {
      hide TerminalEvents, RecordOk;
      TerminalEventsAppend(r.events, q.events[|r.events|]);
      assert q.events == r.events + [q.events[|r.events|]];
    }
  }

  // ---- replay ----

  /** list_events: the events after a sequence number, at most limit of them. */
  function EventsAfter(events: seq<Event>, after: nat, limit: nat): seq<Event> {
    if events == [] || limit == 0 then []
    else if events[0].sequence > after then [events[0]] + EventsAfter(events[1..], after, limit - 1)
    else EventsAfter(events[1..], after, limit)
  }

  ghost predicate NumberedFrom(events: seq<Event>, base: nat) {
    forall i :: 0 <= i < |events| ==> events[i].sequence == base + i + 1
  }

  /** The slice of a log numbered from base + 1 that follows a sequence number. */
  function Slice(events: seq<Event>, base: nat, after: nat, limit: nat): seq<Event> {
    var lo := if after <= base then 0 else if after - base <= |events| then after - base else |events|;
    events[lo..if limit <= |events| - lo then lo + limit else |events|]
  }

  lemma NumberedRest(events: seq<Event>, base: nat)
    requires NumberedFrom(events, base) && events != []
    ensures NumberedFrom(events[1..], base + 1) && events[0].sequence == base + 1
  {
  }

  lemma {:induction false} PageFrom(events: seq<Event>, base: nat, after: nat, limit: nat)
    requires NumberedFrom(events, base)
    ensures EventsAfter(events, after, limit) == Slice(events, base, after, limit)
  {
    if events != [] && limit != 0 {
      var rest := events[1..];
      NumberedRest(events, base);
      if events[0].sequence > after {
        PageFrom(rest, base + 1, after, limit - 1);
        FirstOfSlice(events, base, after, limit);
      } else {
        PageFrom(rest, base + 1, after, limit);
        RestOfSlice(events, base, after, limit);
      }
    }
  }

  lemma FirstOfSlice(events: seq<Event>, base: nat, after: nat, limit: nat)
    requires events != [] && limit > 0 && after <= base
    ensures Slice(events, base, after, limit) == [events[0]] + Slice(events[1..], base + 1, after, limit - 1)
  {
  }

  lemma RestOfSlice(events: seq<Event>, base: nat, after: nat, limit: nat)
    requires events != [] && after > base
    ensures Slice(events, base, after, limit) == Slice(events[1..], base + 1, after, limit)
  {
    var lo := if after - base <= |events| then after - base else |events|;
    SliceOfRest(events, lo, if limit <= |events| - lo then lo + limit else |events|);
  }

  /** On a numbered log a page is the slice that starts right after the cursor. */
  lemma PageIsSlice(events: seq<Event>, after: nat, limit: nat)
    requires Numbered(events) && after <= |events|
    ensures EventsAfter(events, after, limit)
            == events[after..if limit <= |events| - after then after + limit else |events|]
  {
    PageFrom(events, 0, after, limit);
  }
}
