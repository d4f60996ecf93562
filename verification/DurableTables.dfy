// The durable tables as one value, and the store operations that span more than one run:
// idempotent creation, the claim of the oldest queued run, the recovery listing and the
// action receipts.

module DurableTables {
  import opened Common
  import opened Ordering
  import opened DurableRuns
  import opened DurableHistory

  datatype KeyRow = KeyRow(digest: string, runId: string)

  datatype ActionKey = ActionKey(runId: string, step: string, tool: string, arguments: string)

  datatype ActionStatus = ActionPending | ActionCompleted | ActionFailed

  datatype Receipt = Receipt(runId: string, status: ActionStatus, outcome: Option<Json>)

  datatype Reservation = Reservation(key: ActionKey, created: bool, status: ActionStatus, outcome: Option<Json>)

  datatype Db = Db(runs: map<string, Record>, keys: map<string, KeyRow>, receipts: map<ActionKey, Receipt>)

  // ---- creation ----

  /** The rows a new run inserts; digest and key are already normalised. */
  function Inserted(db: Db, runId: string, digest: string, key: Option<string>, metadata: Metadata, now: Time): Db {
    var grown := db.(runs := db.runs[runId := Fresh(runId, digest, metadata, now)]);
    if key.Some? then grown.(keys := grown.keys[key.value := KeyRow(digest, runId)]) else grown
  }

  function CreateRun(db: Db, runId: string, digest: string, key: Option<string>,
                     metadata: Metadata, now: Time): (Db, Result<(Run, bool)>)
  {
    if !Identifier(runId) || Blank(digest) || (key.Some? && !Identifier(key.value)) then (db, Err(ValueError))
    else if key.Some? && Strip(key.value) in db.keys then
      var row := db.keys[Strip(key.value)];
      (db, if row.digest != Strip(digest) then Err(IdempotencyConflict)
           else if row.runId in db.runs then Ok((db.runs[row.runId].row, false)) else Err(RunNotFound))
    else if runId in db.runs then (db, Err(RunAlreadyExists))
    else
      (Inserted(db, runId, Strip(digest), if key.Some? then Some(Strip(key.value)) else None, metadata, now),
       Ok((Fresh(runId, Strip(digest), metadata, now).row, true)))
  }

  // ---- operations on one run ----

  /** What an operation reports for a run that does not exist. */
  function MissingRun(op: RunOp): Option<Error> {
    match op
    case Transition(e, _, n, why, who, _, _) =>
      if n !in AllowedNext(e) then Some(InvalidTransition)
      else if Blank(why) || Blank(who) then Some(ValueError) else Some(CompareAndSwap)
    case Renew(w, _, s, _) => if Blank(w) || s <= 0.0 then Some(ValueError) else Some(RunNotFound)
    case Release(w) => if Blank(w) then Some(ValueError) else None
    case Cancel(why, who, _) => if Blank(why) || Blank(who) then Some(ValueError) else Some(RunNotFound)
    case Finalize(w, s, why, _, e, _, _) =>
      if Blank(w) || !Terminal(s) || Blank(why) || Blank(e) then Some(ValueError) else Some(RunNotFound)
    case Append(e, _, _, _) => if Blank(e) then Some(ValueError) else Some(RunNotFound)
    case Merge(_, _) => Some(RunNotFound)
  }

  function ApplyTo(db: Db, runId: string, op: RunOp): (Db, Option<Error>) {
    if runId !in db.runs then (db, MissingRun(op))
    else
      match Apply(db.runs[runId], op)
      case Err(e) => (db, Some(e))
      case Ok(r) => (db.(runs := db.runs[runId := r]), None)
  }

  // ---- the order in which the tables are scanned ----

  predicate Earlier(times: map<string, Time>, a: string, b: string)
    requires a in times && b in times
  {
    times[a] < times[b] || (times[a] == times[b] && Before(a, b))
  }

  lemma EarlierTransitive(times: map<string, Time>, a: string, b: string, c: string)
    requires a in times && b in times && c in times
    requires Earlier(times, a, b) && Earlier(times, b, c)
    ensures Earlier(times, a, c)
  {
    if times[a] == times[b] == times[c] { LexTransitive(Codes(a), Codes(b), Codes(c)); }
  }

  ghost predicate IsEarliest(times: map<string, Time>, ids: set<string>, m: string)
    requires ids <= times.Keys
  {
    m in ids && forall o :: o in ids && o != m ==> Earlier(times, m, o)
  }

  lemma {:induction false} EarliestExists(times: map<string, Time>, ids: set<string>)
    requires ids <= times.Keys && ids != {}
    ensures exists m :: IsEarliest(times, ids, m)
    decreases |ids|
  {
    var x :| x in ids;
    var rest := ids - {x};
    if rest == {} {
      assert forall o :: o in ids && o != x ==> o in rest;
      assert IsEarliest(times, ids, x);
    } else {
      EarliestExists(times, rest);
      var m :| IsEarliest(times, rest, m);
      BeforeTotal(m, x);
      if Earlier(times, x, m) {
        forall o | o in ids && o != x ensures Earlier(times, x, o) {
          if o != m { EarlierTransitive(times, x, m, o); }
        }
        assert IsEarliest(times, ids, x);
      } else {
        assert IsEarliest(times, ids, m);
      }
    }
  }

  ghost function Earliest(times: map<string, Time>, ids: set<string>): (m: string)
    requires ids <= times.Keys && ids != {}
    ensures IsEarliest(times, ids, m)
  {
    EarliestExists(times, ids);
    var m :| IsEarliest(times, ids, m);
    m
  }

  lemma EarliestUnique(times: map<string, Time>, ids: set<string>, m: string)
    requires ids <= times.Keys && ids != {} && IsEarliest(times, ids, m)
    ensures m == Earliest(times, ids)
  {
    BeforeTotal(m, Earliest(times, ids));
  }

  /** The ids in ascending order of time, then id. */
  ghost function InOrder(times: map<string, Time>, ids: set<string>): (s: seq<string>)
    requires ids <= times.Keys
    ensures |s| == |ids|
    ensures forall i :: 0 <= i < |s| ==> s[i] in ids
    decreases |ids|
  {
    if ids == {} then []
    else
      var m := Earliest(times, ids);
      [m] + InOrder(times, ids - {m})
  }

  // ---- claim ----

  function CreatedAt(db: Db): map<string, Time> {
    map id | id in db.runs :: db.runs[id].row.createdAt
  }

  function QueuedIds(db: Db): set<string> {
    set id | id in db.runs && db.runs[id].row.state == Queued
  }

  /** claim_next: the oldest queued run goes to the worker, with a fresh lease. */
  ghost function ClaimNext(db: Db, worker: string, seconds: Time, now: Time): (Db, Result<Option<string>>) {
    if Blank(worker) || seconds <= 0.0 then (db, Err(ValueError))
    else if QueuedIds(db) == {} then (db, Ok(None))
    else
      var id := Earliest(CreatedAt(db), QueuedIds(db));
      (db.(runs := db.runs[id := Claimed(db.runs[id], Strip(worker), seconds, now)]), Ok(Some(id)))
  }

  // ---- recovery listing ----

  function UpdatedAt(db: Db): map<string, Time> {
    map id | id in db.runs :: db.runs[id].row.updatedAt
  }

  predicate Abandoned(r: Record, now: Time) {
    r.row.state in {Running, Cancelling} && (r.lease.None? || r.lease.value.expiresAt <= now)
  }

  function AbandonedIds(db: Db, now: Time): set<string> {
    set id | id in db.runs && Abandoned(db.runs[id], now)
  }

  ghost function Rows(db: Db, ids: seq<string>): (s: seq<Run>)
    requires forall i :: 0 <= i < |ids| ==> ids[i] in db.runs
    ensures |s| == |ids|
    ensures forall i :: 0 <= i < |s| ==> s[i] == db.runs[ids[i]].row
  {
    seq(|ids|, i requires 0 <= i < |ids| => db.runs[ids[i]].row)
  }

  /** list_recovery_candidates: running or cancelling runs without a live lease, oldest first. */
  ghost function RecoveryCandidates(db: Db, now: Time): seq<Run> {
    Rows(db, InOrder(UpdatedAt(db), AbandonedIds(db, now)))
  }

  // ---- action receipts ----

  function MakeActionKey(runId: string, step: string, tool: string, arguments: string): Option<ActionKey> {
    if Blank(runId) || Blank(step) || Blank(tool) then None
    else Some(ActionKey(Strip(runId), Strip(step), Strip(tool), arguments))
  }

  function ReserveAction(db: Db, runId: string, step: string, tool: string, arguments: string): (Db, Result<Reservation>)
  {
    if runId !in db.runs then (db, Err(RunNotFound))
    else
      match MakeActionKey(runId, step, tool, arguments)
      case None => (db, Err(ValueError))
      case Some(key) =>
        if key in db.receipts then
          (db, Ok(Reservation(key, false, db.receipts[key].status, db.receipts[key].outcome)))
        else
          (db.(receipts := db.receipts[key := Receipt(runId, ActionPending, None)]),
           Ok(Reservation(key, true, ActionPending, None)))
  }

  /** complete_action: the first completion sticks and every later one returns it. */
  function CompleteAction(db: Db, key: ActionKey, outcome: Json): (Db, Result<Option<Json>>) {
    if key !in db.receipts then (db, Err(UnknownReceipt))
    else
      var r := db.receipts[key];
      match r.status
      case ActionCompleted => (db, Ok(r.outcome))
      case ActionFailed => (db, Err(NotPending))
      case ActionPending =>
        (db.(receipts := db.receipts[key := r.(status := ActionCompleted, outcome := Some(outcome))]), Ok(Some(outcome)))
  }

  function FailureOutcome(errorType: string, message: string): Json {
    Object(map[Named("error_type") := Text(Prefix(Strip(errorType), 120)),
               Message := Text(Prefix(Strip(message), 500))])
  }

  function FailAction(db: Db, key: ActionKey, errorType: string, message: string): (Db, Option<Error>) {
    if Blank(errorType) || Blank(message) then (db, Some(ValueError))
    else if key !in db.receipts || db.receipts[key].status != ActionPending then (db, Some(NotPending))
    else
      (db.(receipts := db.receipts[key := db.receipts[key].(status := ActionFailed,
                                                           outcome := Some(FailureOutcome(errorType, message)))]),
       None)
  }

  function ReceiptKeys(db: Db, runId: string): set<ActionKey> {
    set k | k in db.receipts && db.receipts[k].runId == runId
  }

  function ReceiptCount(db: Db, runId: string): nat {
    |ReceiptKeys(db, runId)|
  }

  // ---- the invariant of the tables ----

  ghost predicate DbOk(db: Db) {
    && (forall id :: id in db.runs ==> RecordOk(db.runs[id]) && db.runs[id].row.runId == id)
    && (forall k :: k in db.keys ==> db.keys[k].runId in db.runs
                                     && db.runs[db.keys[k].runId].row.digest == db.keys[k].digest)
  }

  /** Nothing already recorded is rewritten: logs, events and keys only grow, and a run keeps
      its request digest and creation time. */
  ghost predicate Evolves(a: Db, b: Db) {
    && (forall id :: id in a.runs ==>
          && id in b.runs && a.runs[id].log <= b.runs[id].log && a.runs[id].events <= b.runs[id].events
          && b.runs[id].row.digest == a.runs[id].row.digest && b.runs[id].row.createdAt == a.runs[id].row.createdAt)
    && (forall k :: k in a.keys ==> k in b.keys && b.keys[k] == a.keys[k])
  }

  lemma EvolvesTransitive(a: Db, b: Db, c: Db)
    requires Evolves(a, b) && Evolves(b, c)
    ensures Evolves(a, c)
  {
  }

  ghost predicate Continues(r: Record, q: Record) {
    && RecordOk(q) && r.log <= q.log && r.events <= q.events && q.row.runId == r.row.runId
    && q.row.digest == r.row.digest && q.row.createdAt == r.row.createdAt
  }

  lemma ReplaceRun(db: Db, id: string, q: Record)
    requires DbOk(db) && id in db.runs && Continues(db.runs[id], q)
    ensures DbOk(db.(runs := db.runs[id := q])) && Evolves(db, db.(runs := db.runs[id := q]))
  {
    hide RecordOk;
  }

  lemma AddRun(db: Db, r: Record)
    requires DbOk(db) && r.row.runId !in db.runs && RecordOk(r)
    ensures DbOk(db.(runs := db.runs[r.row.runId := r])) && Evolves(db, db.(runs := db.runs[r.row.runId := r]))
  {
    hide RecordOk;
  }

  lemma AddKey(db: Db, key: string, row: KeyRow)
    requires DbOk(db) && key !in db.keys && row.runId in db.runs && db.runs[row.runId].row.digest == row.digest
    ensures DbOk(db.(keys := db.keys[key := row])) && Evolves(db, db.(keys := db.keys[key := row]))
  {
    hide RecordOk;
  }

  lemma InsertedOk(db: Db, runId: string, digest: string, key: Option<string>, metadata: Metadata, now: Time)
    requires DbOk(db) && runId !in db.runs && (key.Some? ==> key.value !in db.keys)
    ensures DbOk(Inserted(db, runId, digest, key, metadata, now))
    ensures Evolves(db, Inserted(db, runId, digest, key, metadata, now))
  {
    var r := Fresh(runId, digest, metadata, now);
    FreshOk(runId, digest, metadata, now);
    assert r.row.runId == runId && r.row.digest == digest;
    hide RecordOk, DbOk, Evolves, Fresh;
    AddRun(db, r);
    if key.Some? {
      var grown := db.(runs := db.runs[runId := r]);
      AddKey(grown, key.value, KeyRow(digest, runId));
      EvolvesTransitive(db, grown, Inserted(db, runId, digest, key, metadata, now));
    }
  }

  lemma CreateRunInserts(db: Db, runId: string, digest: string, key: Option<string>, metadata: Metadata, now: Time)
    ensures var after := CreateRun(db, runId, digest, key, metadata, now).0;
            var k := if key.Some? then Some(Strip(key.value)) else None;
            after != db ==> after == Inserted(db, runId, Strip(digest), k, metadata, now)
                            && runId !in db.runs && (k.Some? ==> k.value !in db.keys)
  {
  }

  lemma CreateRunOk(db: Db, runId: string, digest: string, key: Option<string>, metadata: Metadata, now: Time)
    requires DbOk(db)
    ensures DbOk(CreateRun(db, runId, digest, key, metadata, now).0)
    ensures Evolves(db, CreateRun(db, runId, digest, key, metadata, now).0)
  {
    CreateRunInserts(db, runId, digest, key, metadata, now);
    if CreateRun(db, runId, digest, key, metadata, now).0 != db {
      InsertedOk(db, runId, Strip(digest), if key.Some? then Some(Strip(key.value)) else None, metadata, now);
    }
  }

  lemma ApplyContinues(r: Record, op: RunOp)
    requires RecordOk(r) && Apply(r, op).Ok?
    ensures Continues(r, Apply(r, op).value)
  {
    ApplyKeepsRecord(r, op);
    HistoryAppendOnly(r, op);
  }

  lemma ApplyToOk(db: Db, runId: string, op: RunOp)
    requires DbOk(db)
    ensures DbOk(ApplyTo(db, runId, op).0)
    ensures Evolves(db, ApplyTo(db, runId, op).0)
  {
    if runId in db.runs && Apply(db.runs[runId], op).Ok? {
      ApplyContinues(db.runs[runId], op);
      ReplaceRun(db, runId, Apply(db.runs[runId], op).value);
    }
  }

  lemma ClaimNextOk(db: Db, worker: string, seconds: Time, now: Time)
    requires DbOk(db)
    ensures DbOk(ClaimNext(db, worker, seconds, now).0)
    ensures Evolves(db, ClaimNext(db, worker, seconds, now).0)
  {
    if !(Blank(worker) || seconds <= 0.0) && QueuedIds(db) != {} {
      var id := Earliest(CreatedAt(db), QueuedIds(db));
      ClaimedOk(db.runs[id], Strip(worker), seconds, now);
      ReplaceRun(db, id, Claimed(db.runs[id], Strip(worker), seconds, now));
    }
  }
}
