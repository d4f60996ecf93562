// One durable run: its row, its transition log, its lease and its public events, and what
// every store operation does to them. Operations are functions on the whole record, so
// what they keep can be proved once, run by run.

module DurableRuns {
  import opened Common

  datatype RunState =
    | Queued | Running | Cancelling
    | Completed | Failed | Blocked | Stopped | BudgetExhausted | RecoveryRequired

  predicate Terminal(s: RunState) {
    s in {Completed, Failed, Blocked, Stopped, BudgetExhausted, RecoveryRequired}
  }

  function AllowedNext(s: RunState): set<RunState> {
    match s
    case Queued => {Running, Failed, Stopped, RecoveryRequired}
    case Running =>
      {Queued, Cancelling, Completed, Failed, Blocked, Stopped, BudgetExhausted, RecoveryRequired}
    case Cancelling => {Stopped, Failed, RecoveryRequired}
    case _ => {}
  }

  /** The metadata and payload fields the store itself reads or writes; Named is any other. */
  datatype Field =
    | StopReason | ErrorField | Code | Message | Reason | Phase | Status | Named(name: string)

  /** Metadata values; StateName(s) is the text that names a run state. */
  datatype Json =
    | Text(text: string) | StateName(state: RunState) | Object(fields: map<Field, Json>) | Other(tag: int)

  type Metadata = map<Field, Json>

  /** The two event types the store writes itself, and those a caller names. */
  datatype EventType = CancelRequestedEvent | StoppedEvent | NamedEvent(name: string)

  datatype Run = Run(
    runId: string, digest: string, state: RunState, version: nat, recoveryAttempts: nat,
    createdAt: Time, updatedAt: Time, terminalReason: Option<string>, metadata: Metadata)

  datatype LogRow = LogRow(
    from: Option<RunState>, to: RunState, version: nat, reason: string, actor: string, at: Time)

  datatype Lease = Lease(worker: string, expiresAt: Time, runVersion: nat)

  datatype Event = Event(
    sequence: nat, eventType: EventType, payload: Metadata, terminal: bool, at: Time)

  datatype Record = Record(row: Run, log: seq<LogRow>, lease: Option<Lease>, events: seq<Event>)

  // ---- the operations ----

  function Fresh(runId: string, digest: string, metadata: Metadata, now: Time): (r: Record) {
    Record(Run(runId, digest, Queued, 0, 0, now, now, None, metadata),
           [LogRow(None, Queued, 0, "created", "service", now)], None, [])
  }

  /** The row and log entry that every state change writes. */
  function Moved(r: Record, next: RunState, reason: string, actor: string, now: Time): Record {
    r.(row := r.row.(state := next, version := r.row.version + 1, updatedAt := now,
                     terminalReason := if Terminal(next) then Some(reason) else None),
       log := r.log + [LogRow(Some(r.row.state), next, r.row.version + 1, reason, actor, now)])
  }

  function Transitioned(r: Record, expected: RunState, version: nat, next: RunState,
                        reason: string, actor: string, now: Time, bump: bool): Result<Record>
  {
    if next !in AllowedNext(expected) then Err(InvalidTransition)
    else if Blank(reason) || Blank(actor) then Err(ValueError)
    else if r.row.state != expected || r.row.version != version then Err(CompareAndSwap)
    else
      var m := Moved(r, next, Strip(reason), Strip(actor), now);
      Ok(m.(row := m.row.(recoveryAttempts := r.row.recoveryAttempts + if bump then 1 else 0),
            lease := if Terminal(next) || next == Queued then None else r.lease))
  }

  /** The claim of a queued run; it leaves the terminal_reason column alone. */
  function Claimed(r: Record, worker: string, seconds: Time, now: Time): Record {
    r.(row := r.row.(state := Running, version := r.row.version + 1, updatedAt := now),
       lease := Some(Lease(worker, now + seconds, r.row.version + 1)),
       log := r.log + [LogRow(Some(Queued), Running, r.row.version + 1, "worker_claimed", worker, now)])
  }

  function Renewed(r: Record, worker: string, version: nat, seconds: Time, now: Time): Result<Record> {
    if Blank(worker) || seconds <= 0.0 then Err(ValueError)
    else if r.row.version != version || r.row.state !in {Running, Cancelling} then Err(LeaseConflict)
    else if r.lease.None? || r.lease.value.worker != Strip(worker) then Err(LeaseConflict)
    else Ok(r.(lease := Some(Lease(Strip(worker), now + seconds, version))))
  }

  predicate Holds(r: Record, worker: string) {
    r.lease.Some? && r.lease.value.worker == Strip(worker)
  }

  function Released(r: Record, worker: string): Result<Record> {
    if Blank(worker) then Err(ValueError)
    else Ok(if Holds(r, worker) then r.(lease := None) else r)
  }

  function MaxSequence(events: seq<Event>): nat {
    if events == [] then 0
    else
      var m := MaxSequence(events[..|events| - 1]);
      if events[|events| - 1].sequence > m then events[|events| - 1].sequence else m
  }

  function Emitted(r: Record, eventType: EventType, payload: Metadata, terminal: bool, now: Time): Record {
    r.(events := r.events + [Event(MaxSequence(r.events) + 1, eventType, payload, terminal, now)])
  }

  function Appended(r: Record, eventType: string, payload: Metadata, terminal: bool, now: Time): Result<Record> {
    if Blank(eventType) then Err(ValueError)
    else Ok(Emitted(r, NamedEvent(Prefix(Strip(eventType), 160)), payload, terminal, now))
  }

  function Merged(r: Record, patch: Metadata, now: Time): Record {
    r.(row := r.row.(metadata := r.row.metadata + patch, updatedAt := now))
  }

  /** The writes of a cancellation: a queued run stops at once, a running one is cancelling. */
  function Cancelled(r: Record, why: string, actor: string, now: Time): Record {
    var next := if r.row.state == Queued then Stopped else Cancelling;
    var m := Moved(r, next, why, actor, now);
    var m := m.(row := m.row.(metadata := m.row.metadata[StopReason := Text(why)]));
    var m := Emitted(m, CancelRequestedEvent, map[Reason := Text(why)], false, now);
    if next != Stopped then m
    else Emitted(m, StoppedEvent, map[Reason := Text(why), Phase := Text("queued")], true, now).(lease := None)
  }

  function CancelRequested(r: Record, reason: string, actor: string, now: Time): Result<Record> {
    if Blank(reason) || Blank(actor) then Err(ValueError)
    else if Terminal(r.row.state) then Err(InvalidTransition)
    else if r.row.state == Cancelling then Ok(r)
    else Ok(Cancelled(r, Strip(reason), Strip(actor), now))
  }

  /** The reason a finalization records: a cancelling run keeps the one it was cancelled for. */
  function FinalReason(r: Record, reason: string): string {
    var m := r.row.metadata;
    if r.row.state == Cancelling && StopReason in m && m[StopReason].Text? && !Blank(m[StopReason].text)
    then Strip(m[StopReason].text) else Strip(reason)
  }

  function FinalState(r: Record, requested: RunState, reason: string): RunState {
    if r.row.state != Cancelling then requested
    else if FinalReason(r, reason) == "run_timeout" then Failed else Stopped
  }

  /** A run that timed out carries the timeout error, unless it already names that code. */
  function WithTimeout(m: Metadata, why: string): Metadata {
    if why != "run_timeout" then m
    else if ErrorField in m && m[ErrorField].Object? && Code in m[ErrorField].fields
            && m[ErrorField].fields[Code] == Text("run_timeout") then m
    else m[ErrorField := Object(map[Code := Text("run_timeout"),
                                    Message := Text("run exceeded whole-run timeout")])]
  }

  function FinalMetadata(r: Record, reason: string, patch: Metadata): Metadata {
    WithTimeout((r.row.metadata + patch)[StopReason := Text(FinalReason(r, reason))], FinalReason(r, reason))
  }

  predicate LiveOwner(r: Record, worker: string, now: Time) {
    Holds(r, worker) && now < r.lease.value.expiresAt
  }

  /** The writes of a finalization: row and log entry, metadata, terminal event, lease. */
  function Closed(r: Record, next: RunState, why: string, actor: string, metadata: Metadata,
                  eventType: EventType, payload: Metadata, now: Time): Record
  {
    var m := Moved(r, next, why, actor, now);
    var m := m.(row := m.row.(metadata := metadata));
    Emitted(m, eventType, payload[Status := StateName(next)][StopReason := Text(why)], true, now)
    .(lease := None)
  }

  function Finalized(r: Record, worker: string, requested: RunState, reason: string, patch: Metadata,
                     eventType: string, payload: Metadata, now: Time): Result<Record>
  {
    if Blank(worker) || !Terminal(requested) || Blank(reason) || Blank(eventType) then Err(ValueError)
    else if Terminal(r.row.state) then Ok(r)
    else if !LiveOwner(r, worker, now) then Err(LeaseConflict)
    else if FinalState(r, requested, reason) !in AllowedNext(r.row.state) then Err(InvalidTransition)
    else Ok(Closed(r, FinalState(r, requested, reason), FinalReason(r, reason), Strip(worker),
                   FinalMetadata(r, reason, patch), NamedEvent(Prefix(Strip(eventType), 160)), payload, now))
  }

  datatype RunOp =
    | Transition(expected: RunState, version: nat, next: RunState, reason: string, actor: string, now: Time, bump: bool)
    | Renew(worker: string, version: nat, seconds: Time, now: Time)
    | Release(worker: string)
    | Cancel(reason: string, actor: string, now: Time)
    | Finalize(worker: string, requested: RunState, reason: string, patch: Metadata,
               eventType: string, payload: Metadata, now: Time)
    | Append(eventType: string, payload: Metadata, terminal: bool, now: Time)
    | Merge(patch: Metadata, now: Time)

  function Apply(r: Record, op: RunOp): Result<Record> {
    match op
    case Transition(e, v, n, why, who, t, b) => Transitioned(r, e, v, n, why, who, t, b)
    case Renew(w, v, s, t) => Renewed(r, w, v, s, t)
    case Release(w) => Released(r, w)
    case Cancel(why, who, t) => CancelRequested(r, why, who, t)
    case Finalize(w, s, why, p, e, d, t) => Finalized(r, w, s, why, p, e, d, t)
    case Append(e, d, f, t) => Appended(r, e, d, f, t)
    case Merge(p, t) => Ok(Merged(r, p, t))
  }

  // ---- the invariant of one run ----

  /** The log is a chain of allowed moves that starts at the creation of the run. */
  ghost predicate Chain(log: seq<LogRow>) {
    && log != [] && log[0].from == None && log[0].to == Queued
    && (forall i :: 0 <= i < |log| ==> log[i].version == i)
    && (forall i :: 0 < i < |log| ==>
          log[i].from == Some(log[i - 1].to) && log[i].to in AllowedNext(log[i - 1].to))
  }

  /** The row is what the last entry of the log says. */
  ghost predicate RowMatchesLog(row: Run, log: seq<LogRow>)
    requires log != []
  {
    var last := log[|log| - 1];
    && row.state == last.to && row.version == last.version
    && row.terminalReason == (if Terminal(row.state) then Some(last.reason) else None)
  }

  ghost predicate LeaseOk(r: Record) {
    r.lease.Some? ==> r.row.state in {Running, Cancelling} && r.lease.value.runVersion <= r.row.version
  }

  /** Event sequences are 1, 2, .., n. */
  ghost predicate Numbered(events: seq<Event>) {
    forall i :: 0 <= i < |events| ==> events[i].sequence == i + 1
  }

  ghost predicate RecordOk(r: Record) {
    Chain(r.log) && RowMatchesLog(r.row, r.log) && LeaseOk(r) && Numbered(r.events)
  }

  lemma {:induction false} NumberedMax(events: seq<Event>)
    requires Numbered(events)
    ensures MaxSequence(events) == |events|
  {
    if events != [] {
      NumberedMax(events[..|events| - 1]);
    }
  }

  lemma FreshOk(runId: string, digest: string, metadata: Metadata, now: Time)
    ensures RecordOk(Fresh(runId, digest, metadata, now))
  {
  }

  lemma ClaimedOk(r: Record, worker: string, seconds: Time, now: Time)
    requires RecordOk(r) && r.row.state == Queued
    ensures RecordOk(Claimed(r, worker, seconds, now))
  {
  }

  lemma MovedOk(r: Record, next: RunState, reason: string, actor: string, now: Time)
    requires RecordOk(r) && next in AllowedNext(r.row.state)
    ensures var m := Moved(r, next, reason, actor, now);
            Chain(m.log) && RowMatchesLog(m.row, m.log) && Numbered(m.events)
  {
  }

  lemma EmittedNumbered(r: Record, eventType: EventType, payload: Metadata, terminal: bool, now: Time)
    requires Numbered(r.events)
    ensures Numbered(Emitted(r, eventType, payload, terminal, now).events)
  {
    NumberedMax(r.events);
  }

  lemma CancelledOk(r: Record, why: string, actor: string, now: Time)
    requires RecordOk(r) && r.row.state in {Queued, Running}
    ensures RecordOk(Cancelled(r, why, actor, now))
  {
    var next := if r.row.state == Queued then Stopped else Cancelling;
    MovedOk(r, next, why, actor, now);
    var m := Moved(r, next, why, actor, now);
    EmittedNumbered(m, CancelRequestedEvent, map[Reason := Text(why)], false, now);
    EmittedNumbered(Emitted(m, CancelRequestedEvent, map[Reason := Text(why)], false, now),
                    StoppedEvent, map[Reason := Text(why), Phase := Text("queued")], true, now);
  }

  lemma FinalizeOk(r: Record, op: RunOp)
    requires RecordOk(r) && op.Finalize? && Apply(r, op).Ok?
    ensures RecordOk(Apply(r, op).value)
  {
    if !Terminal(r.row.state) {
      MovedOk(r, FinalState(r, op.requested, op.reason), FinalReason(r, op.reason), Strip(op.worker), op.now);
      NumberedMax(r.events);
    }
  }

  /** Every store operation keeps the log a chain, the row its last entry, the lease and the
      event numbers in order. */
  lemma ApplyKeepsRecord(r: Record, op: RunOp)
    requires RecordOk(r) && Apply(r, op).Ok?
    ensures RecordOk(Apply(r, op).value)
  {
    match op
    case Transition(e, v, n, why, who, t, b) =>
      MovedOk(r, n, Strip(why), Strip(who), t);
    case Cancel(why, who, t) =>
      if r.row.state in {Queued, Running} { CancelledOk(r, Strip(why), Strip(who), t); }
    case Finalize(_, _, _, _, _, _, _) =>
      FinalizeOk(r, op);
    case Append(e, d, f, t) =>
      EmittedNumbered(r, NamedEvent(Prefix(Strip(e), 160)), d, f, t);
    case _ =>
  }
}
