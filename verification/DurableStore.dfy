// The durable store as it is written: separate tables that each transaction updates row by
// row. Every method is proved to do to the tables, read as one value, exactly what the
// operations of DurableRuns and DurableTables say.

module DurableStore {
  import opened Common
  import opened Ordering
  import opened DurableRuns
  import opened DurableTables

  lemma {:induction false} MaxSequenceNext(events: seq<Event>, e: Event)
    requires e.sequence == MaxSequence(events) + 1
    ensures MaxSequence(events + [e]) == e.sequence
  {
    assert (events + [e])[..|events|] == events;
  }

  /** The id that comes first in the given scan order. */
  method FirstByTime(times: map<string, Time>, ids: set<string>) returns (m: string)
    requires ids <= times.Keys && ids != {}
    ensures m == Earliest(times, ids)
  {
    m :| m in ids;
    var rest := ids - {m};
    while rest != {}
      invariant rest <= ids && m in ids && m !in rest
      invariant forall o :: o in ids && o !in rest && o != m ==> Earlier(times, m, o)
      decreases |rest|
    {
      var x :| x in rest;
      rest := rest - {x};
      BeforeTotal(m, x);
      if Earlier(times, x, m) {
        forall o | o in ids && o !in rest && o != x ensures Earlier(times, x, o) {
          if o != m { EarlierTransitive(times, x, m, o); }
        }
        m := x;
      }
    }
    EarliestUnique(times, ids, m);
  }

  /** ORDER BY time, id: repeatedly the first of the rows that remain. */
  method ScanByTime(times: map<string, Time>, ids: set<string>) returns (s: seq<string>)
    requires ids <= times.Keys
    ensures s == InOrder(times, ids)
  {
    var rest := ids;
    s := [];
    while rest != {}
      invariant rest <= ids && s + InOrder(times, rest) == InOrder(times, ids)
      decreases |rest|
    {
      var m := FirstByTime(times, rest);
      s := s + [m];
      rest := rest - {m};
    }
  }

  /** What a transaction does to the lease row of its run. */
  datatype LeaseChange = KeepLease | DropLease | PutLease(lease: Lease)

  ghost function Changed(lease: Option<Lease>, change: LeaseChange): Option<Lease> {
    match change case KeepLease => lease case DropLease => None case PutLease(l) => Some(l)
  }

  ghost function With(db: Db, id: string, r: Record): Db {
    db.(runs := db.runs[id := r])
  }

  lemma WithTwice(db: Db, id: string, a: Record, b: Record)
    ensures With(With(db, id, a), id, b) == With(db, id, b)
  {
  }

  ghost predicate Accepts(r: Record, op: RunOp) {
    op.Transition? && Apply(r, op).Ok?
  }

  lemma TransitionWrites(db: Db, id: string, op: RunOp)
    requires id in db.runs && Accepts(db.runs[id], op)
    ensures var r := db.runs[id];
            var row := r.row.(
              state := op.next, version := op.version + 1,
              recoveryAttempts := r.row.recoveryAttempts + (if op.bump then 1 else 0), updatedAt := op.now,
              terminalReason := if Terminal(op.next) then Some(Strip(op.reason)) else None);
            var entry := LogRow(Some(op.expected), op.next, op.version + 1, Strip(op.reason), Strip(op.actor), op.now);
            var change := if Terminal(op.next) || op.next == Queued then DropLease else KeepLease;
            ApplyTo(db, id, op) == (With(db, id, Record(row, r.log + [entry], Changed(r.lease, change), r.events)), None)
  {
  }

  lemma ClaimWrites(r: Record, worker: string, seconds: Time, now: Time)
    requires r.row.state == Queued
    ensures var row := r.row.(state := Running, version := r.row.version + 1, updatedAt := now);
            Record(row, r.log + [LogRow(Some(Queued), Running, row.version, "worker_claimed", worker, now)],
                   Changed(r.lease, PutLease(Lease(worker, now + seconds, row.version))), r.events)
            == Claimed(r, worker, seconds, now)
  {
  }

  lemma FinalizeWrites(db: Db, id: string, op: RunOp)
    requires id in db.runs && op.Finalize? && !Terminal(db.runs[id].row.state)
    requires !Blank(op.worker) && Terminal(op.requested) && !Blank(op.reason) && !Blank(op.eventType)
    requires LiveOwner(db.runs[id], op.worker, op.now)
    requires FinalState(db.runs[id], op.requested, op.reason) in AllowedNext(db.runs[id].row.state)
    ensures var r := db.runs[id];
            var state, why := FinalState(r, op.requested, op.reason), FinalReason(r, op.reason);
            ApplyTo(db, id, op)
            == (With(db, id, Closed(r, state, why, Strip(op.worker),
                                    WithTimeout((r.row.metadata + op.patch)[StopReason := Text(why)], why),
                                    NamedEvent(Prefix(Strip(op.eventType), 160)), op.payload, op.now)), None)
  {
  }

  /** The tables that hold something of a run. */
  datatype Tables = Tables(
    runs: map<string, Run>, transitions: map<string, seq<LogRow>>, leases: map<string, Lease>, events: map<string, seq<Event>>)

  ghost function RecordAt(t: Tables, id: string): Record
    requires id in t.runs && id in t.transitions
  {
    Record(t.runs[id], t.transitions[id], if id in t.leases then Some(t.leases[id]) else None,
           if id in t.events then t.events[id] else [])
  }

  ghost predicate KeysMatch(t: Tables) {
    t.transitions.Keys == t.runs.Keys && t.leases.Keys <= t.runs.Keys && t.events.Keys <= t.runs.Keys
  }

  /** The database reads one record per run. */
  ghost predicate Joins(db: Db, t: Tables) {
    && KeysMatch(t) && db.runs.Keys == t.runs.Keys
    && forall id :: id in t.runs ==> db.runs[id] == RecordAt(t, id)
  }

  /** Changing the rows of one run changes its record. */
  lemma Rejoin(db: Db, t: Tables, u: Tables, id: string)
    requires Joins(db, t) && KeysMatch(u) && id in t.runs && u.runs.Keys == t.runs.Keys
    requires forall o :: o in t.runs && o != id ==> RecordAt(u, o) == RecordAt(t, o)
    ensures db.runs.Keys == t.runs.Keys && db.runs[id] == RecordAt(t, id)
    ensures Joins(With(db, id, RecordAt(u, id)), u)
  {
    hide RecordAt;
  }

  function Moved(t: Tables, id: string, row: Run, entry: LogRow): Tables
    requires id in t.transitions
  {
    t.(runs := t.runs[id := row], transitions := t.transitions[id := t.transitions[id] + [entry]])
  }

  lemma MovedJoins(db: Db, t: Tables, id: string, row: Run, entry: LogRow)
    requires Joins(db, t) && id in t.runs
    ensures id in db.runs && id in t.transitions && db.runs[id].row == t.runs[id]
    ensures Joins(With(db, id, db.runs[id].(row := row, log := db.runs[id].log + [entry])), Moved(t, id, row, entry))
  {
    Rejoin(db, t, Moved(t, id, row, entry), id);
  }

  lemma RowJoins(db: Db, t: Tables, id: string, row: Run)
    requires Joins(db, t) && id in t.runs
    ensures id in db.runs && db.runs[id].row == t.runs[id]
    ensures Joins(With(db, id, db.runs[id].(row := row)), t.(runs := t.runs[id := row]))
  {
    Rejoin(db, t, t.(runs := t.runs[id := row]), id);
  }

  function Leased(leases: map<string, Lease>, id: string, change: LeaseChange): map<string, Lease> {
    match change case KeepLease => leases case DropLease => leases - {id} case PutLease(l) => leases[id := l]
  }

  lemma LeaseJoins(db: Db, t: Tables, id: string, change: LeaseChange)
    requires Joins(db, t) && id in t.runs
    ensures id in db.runs
    ensures Joins(With(db, id, db.runs[id].(lease := Changed(db.runs[id].lease, change))),
                  t.(leases := Leased(t.leases, id, change)))
  {
    var u := t.(leases := Leased(t.leases, id, change));
    assert KeysMatch(u) && forall o :: o in t.runs && o != id ==> RecordAt(u, o) == RecordAt(t, o);
    hide Joins, KeysMatch;
    Rejoin(db, t, u, id);
  }

  function Extended(events: map<string, seq<Event>>, id: string, e: Event): map<string, seq<Event>> {
    events[id := (if id in events then events[id] else []) + [e]]
  }

  lemma EventJoins(db: Db, t: Tables, id: string, e: Event)
    requires Joins(db, t) && id in t.runs
    ensures id in db.runs
    ensures Joins(With(db, id, db.runs[id].(events := db.runs[id].events + [e])), t.(events := Extended(t.events, id, e)))
  {
    Rejoin(db, t, t.(events := Extended(t.events, id, e)), id);
  }

  lemma SameRecords(t: Tables, u: Tables, id: string)
    requires KeysMatch(t) && id !in t.runs && id in u.runs && id in u.transitions
    requires u == t.(runs := t.runs[id := u.runs[id]], transitions := t.transitions[id := u.transitions[id]])
    ensures forall o :: o in t.runs ==> RecordAt(u, o) == RecordAt(t, o)
    ensures RecordAt(u, id) == Record(u.runs[id], u.transitions[id], None, [])
  {
  }

  lemma NewJoins(db: Db, t: Tables, id: string, row: Run, log: seq<LogRow>)
    requires Joins(db, t) && id !in t.runs
    ensures Joins(With(db, id, Record(row, log, None, [])),
                  t.(runs := t.runs[id := row], transitions := t.transitions[id := log]))
  {
    var u := t.(runs := t.runs[id := row], transitions := t.transitions[id := log]);
    SameRecords(t, u, id);
    assert KeysMatch(u);
    hide RecordAt;
  }

  lemma ListIs(db: Db, t: Tables, now: Time)
    requires Joins(db, t)
    ensures (set id | id in t.runs && t.runs[id].state in {Running, Cancelling}
                      && (id !in t.leases || t.leases[id].expiresAt <= now)) == AbandonedIds(db, now)
    ensures (map id | id in t.runs :: t.runs[id].updatedAt) == UpdatedAt(db)
  {
  }

  lemma RowsAre(db: Db, t: Tables, ids: seq<string>, rows: seq<Run>)
    requires Joins(db, t) && |rows| == |ids| && forall i :: 0 <= i < |ids| ==> ids[i] in db.runs && rows[i] == t.runs[ids[i]]
    ensures rows == Rows(db, ids)
  {
  }

  class RunStore {
    var runs: map<string, Run>
    var transitions: map<string, seq<LogRow>>
    var leases: map<string, Lease>
    var idempotency: map<string, KeyRow>
    var receipts: map<ActionKey, Receipt>
    var events: map<string, seq<Event>>

    // The tables read as one value: one record per run.
    ghost var db: Db

    /** Foreign keys hold, and db joins the rows of each run. */
    ghost predicate Valid()
      reads this
    {
      Joins(db, Tables(runs, transitions, leases, events)) && db.keys == idempotency && db.receipts == receipts
    }

    constructor ()
      ensures Valid() && db == Db(map[], map[], map[])
    {
      runs, transitions, leases, idempotency, receipts, events := map[], map[], map[], map[], map[], map[];
      db := Db(map[], map[], map[]);
    }

    /** UPDATE of the run row and INSERT of its log entry. */
    method WriteRowAndEntry(id: string, row: Run, entry: LogRow)
      requires Valid() && id in runs
      modifies this
      ensures Valid() && runs.Keys == old(runs.Keys)
      ensures db == With(old(db), id, old(db).runs[id].(row := row, log := old(db).runs[id].log + [entry]))
    {
      MovedJoins(db, Tables(runs, transitions, leases, events), id, row, entry);
      hide Joins, With;
      db := With(db, id, db.runs[id].(row := row, log := db.runs[id].log + [entry]));
      runs := runs[id := row];
      transitions := transitions[id := transitions[id] + [entry]];
    }

    /** A state change: the run row, its log entry, and what happens to its lease. */
    method WriteMove(id: string, row: Run, entry: LogRow, change: LeaseChange)
      requires Valid() && id in runs
      modifies this
      ensures Valid() && runs.Keys == old(runs.Keys)
      ensures var r := old(db).runs[id];
              db == With(old(db), id, Record(row, r.log + [entry], Changed(r.lease, change), r.events))
    {
      assert id in db.runs;
      hide Valid;
      ghost var base := db;
      WriteRowAndEntry(id, row, entry);
      ghost var m := db.runs[id];
      WriteLease(id, change);
      WithTwice(base, id, m, db.runs[id]);
    }

    method WriteRow(id: string, row: Run)
      requires Valid() && id in runs
      modifies this
      ensures Valid() && db == With(old(db), id, old(db).runs[id].(row := row))
    {
      RowJoins(db, Tables(runs, transitions, leases, events), id, row);
      hide Joins, With;
      db := With(db, id, db.runs[id].(row := row));
      runs := runs[id := row];
    }

    method WriteLease(id: string, change: LeaseChange)
      requires Valid() && id in runs
      modifies this
      ensures Valid() && runs == old(runs)
      ensures db == With(old(db), id, old(db).runs[id].(lease := Changed(old(db).runs[id].lease, change)))
    {
      LeaseJoins(db, Tables(runs, transitions, leases, events), id, change);
      hide Joins, With, Changed;
      db := With(db, id, db.runs[id].(lease := Changed(db.runs[id].lease, change)));
      match change {
        case KeepLease =>
        case DropLease => leases := leases - {id};
        case PutLease(lease) => leases := leases[id := lease];
      }
    }

    method InsertEvent(id: string, e: Event)
      requires Valid() && id in runs
      modifies this
      ensures Valid() && runs == old(runs)
      ensures db == With(old(db), id, old(db).runs[id].(events := old(db).runs[id].events + [e]))
    {
      EventJoins(db, Tables(runs, transitions, leases, events), id, e);
      hide Joins, With;
      db := With(db, id, db.runs[id].(events := db.runs[id].events + [e]));
      events := events[id := (if id in events then events[id] else []) + [e]];
    }

    /** INSERT of the event with the given sequence number, the next one. */
    method WriteEvent(id: string, sequence: nat, eventType: EventType, payload: Metadata, terminal: bool, now: Time)
      requires Valid() && id in runs && sequence == MaxSequence(db.runs[id].events) + 1
      modifies this
      ensures Valid() && runs == old(runs)
      ensures db == With(old(db), id, Emitted(old(db).runs[id], eventType, payload, terminal, now))
      ensures MaxSequence(db.runs[id].events) == sequence
    {
      var e := Event(sequence, eventType, payload, terminal, now);
      MaxSequenceNext(db.runs[id].events, e);
      hide Valid;
      InsertEvent(id, e);
    }

    method LastSequence(id: string) returns (n: nat)
      requires Valid() && id in runs
      ensures n == MaxSequence(db.runs[id].events)
    {
      n := 0;
      if id in events {
        var rows := events[id];
        for i := 0 to |rows|
          invariant n == MaxSequence(rows[..i])
        {
          assert rows[..i + 1][..i] == rows[..i];
          if rows[i].sequence > n { n := rows[i].sequence; }
        }
        assert rows[..|rows|] == rows;
      }
    }

    method InsertRun(runId: string, digest: string, metadata: Metadata, now: Time) returns (row: Run)
      requires Valid() && runId !in runs
      modifies this
      ensures Valid() && row == Fresh(runId, digest, metadata, now).row
      ensures db == With(old(db), runId, Fresh(runId, digest, metadata, now))
    {
      row := Run(runId, digest, Queued, 0, 0, now, now, None, metadata);
      NewJoins(db, Tables(runs, transitions, leases, events), runId, row, [LogRow(None, Queued, 0, "created", "service", now)]);
      hide Joins, With;
      runs := runs[runId := row];
      transitions := transitions[runId := [LogRow(None, Queued, 0, "created", "service", now)]];
      db := With(db, runId, Fresh(runId, digest, metadata, now));
    }

    method InsertKey(key: string, row: KeyRow)
      requires Valid()
      modifies this
      ensures Valid() && db == old(db).(keys := old(db).keys[key := row])
    {
      idempotency := idempotency[key := row];
      db := db.(keys := idempotency);
    }

    method CreateRun(runId: string, digest: string, key: Option<string>, metadata: Metadata, now: Time)
      returns (r: Result<(Run, bool)>)
      requires Valid()
      modifies this
      ensures Valid() && (db, r) == DurableTables.CreateRun(old(db), runId, digest, key, metadata, now)
    {
      if !Identifier(runId) || Blank(digest) || (key.Some? && !Identifier(key.value)) {
        return Err(ValueError);
      }
      if key.Some? && Strip(key.value) in idempotency {
        var existing := idempotency[Strip(key.value)];
        if existing.digest != Strip(digest) { return Err(IdempotencyConflict); }
        if existing.runId !in runs { return Err(RunNotFound); }
        return Ok((runs[existing.runId], false));
      }
      if runId in runs { return Err(RunAlreadyExists); }
      var row := InsertRun(runId, Strip(digest), metadata, now);
      if key.Some? { InsertKey(Strip(key.value), KeyRow(Strip(digest), runId)); }
      r := Ok((row, true));
    }

    method Transition(runId: string, expected: RunState, version: nat, next: RunState,
                      reason: string, actor: string, now: Time, bump: bool) returns (error: Option<Error>)
      requires Valid()
      modifies this
      ensures Valid()
      ensures (db, error)
              == ApplyTo(old(db), runId, RunOp.Transition(expected, version, next, reason, actor, now, bump))
    {
      if next !in AllowedNext(expected) { return Some(InvalidTransition); }
      if Blank(reason) || Blank(actor) { return Some(ValueError); }
      if runId !in runs || runs[runId].state != expected || runs[runId].version != version {
        return Some(CompareAndSwap);
      }
      WriteTransition(runId, RunOp.Transition(expected, version, next, reason, actor, now, bump));
      error := None;
    }

    /** The writes of an accepted transition. */
    method WriteTransition(runId: string, op: RunOp)
      requires Valid() && runId in runs && op.Transition? && Accepts(db.runs[runId], op)
      modifies this
      ensures Valid() && (db, None) == ApplyTo(old(db), runId, op)
    {
      hide ApplyTo, Accepts, Strip, AllowedNext, With, Changed;
      assert db.runs[runId].row == runs[runId];
      hide Joins, RecordAt;
      TransitionWrites(db, runId, op);
      var row := runs[runId].(
        state := op.next, version := op.version + 1,
        recoveryAttempts := runs[runId].recoveryAttempts + if op.bump then 1 else 0, updatedAt := op.now,
        terminalReason := if Terminal(op.next) then Some(Strip(op.reason)) else None);
      WriteMove(runId, row, LogRow(Some(op.expected), op.next, op.version + 1, Strip(op.reason), Strip(op.actor), op.now),
                if Terminal(op.next) || op.next == Queued then DropLease else KeepLease);
    }

    method ClaimNext(worker: string, seconds: Time, now: Time) returns (r: Result<Option<string>>)
      requires Valid()
      modifies this
      ensures Valid() && (db, r) == DurableTables.ClaimNext(old(db), worker, seconds, now)
    {
      if Blank(worker) || seconds <= 0.0 { return Err(ValueError); }
      var queued := set id | id in runs && runs[id].state == Queued;
      assert queued == QueuedIds(db);
      if queued == {} { return Ok(None); }
      var created := map id | id in runs :: runs[id].createdAt;
      assert created == CreatedAt(db);
      var id := FirstByTime(created, queued);
      WriteClaim(id, Strip(worker), seconds, now);
      r := Ok(Some(id));
    }

    /** The writes of a claim. */
    method WriteClaim(id: string, worker: string, seconds: Time, now: Time)
      requires Valid() && id in runs && runs[id].state == Queued
      modifies this
      ensures Valid() && db == With(old(db), id, Claimed(old(db).runs[id], worker, seconds, now))
    {
      var current := runs[id];
      ghost var r := db.runs[id];
      assert r.row == current && id in db.runs;
      hide Valid, Joins, With, Changed, RecordAt;
      ClaimWrites(r, worker, seconds, now);
      hide Claimed;
      var version := current.version + 1;
      var row := current.(state := Running, version := version, updatedAt := now);
      WriteMove(id, row, LogRow(Some(Queued), Running, version, "worker_claimed", worker, now),
                PutLease(Lease(worker, now + seconds, version)));
    }

    method RenewLease(runId: string, worker: string, version: nat, seconds: Time, now: Time) returns (error: Option<Error>)
      requires Valid()
      modifies this
      ensures Valid() && (db, error) == ApplyTo(old(db), runId, Renew(worker, version, seconds, now))
    {
      if Blank(worker) || seconds <= 0.0 { return Some(ValueError); }
      if runId !in runs { return Some(RunNotFound); }
      if runs[runId].version != version || runs[runId].state !in {Running, Cancelling} { return Some(LeaseConflict); }
      if runId !in leases || leases[runId].worker != Strip(worker) { return Some(LeaseConflict); }
      WriteLease(runId, PutLease(leases[runId].(expiresAt := now + seconds, runVersion := version)));
      error := None;
    }

    method ReleaseLease(runId: string, worker: string) returns (r: Result<bool>)
      requires Valid()
      modifies this
      ensures Valid() && db == ApplyTo(old(db), runId, Release(worker)).0
      ensures r == (if Blank(worker) then Err(ValueError)
                    else Ok(runId in old(leases) && old(leases)[runId].worker == Strip(worker)))
    {
      if Blank(worker) { return Err(ValueError); }
      if runId in leases && leases[runId].worker == Strip(worker) {
        WriteLease(runId, DropLease);
        return Ok(true);
      }
      assert runId in runs ==> db.runs == db.runs[runId := db.runs[runId]];
      r := Ok(false);
    }

    method ListRecoveryCandidates(now: Time) returns (rows: seq<Run>)
      requires Valid()
      ensures rows == RecoveryCandidates(db, now)
    {
      ListIs(db, Tables(runs, transitions, leases, events), now);
      var abandoned := set id | id in runs && runs[id].state in {Running, Cancelling}
                                && (id !in leases || leases[id].expiresAt <= now);
      var updated := map id | id in runs :: runs[id].updatedAt;
      hide Joins, AbandonedIds, UpdatedAt, InOrder;
      var ids := ScanByTime(updated, abandoned);
      rows := seq(|ids|, i requires 0 <= i < |ids| && ids[i] in runs reads this => runs[ids[i]]);
      RowsAre(db, Tables(runs, transitions, leases, events), ids, rows);
    }

    method ReserveAction(runId: string, step: string, tool: string, arguments: string) returns (r: Result<Reservation>)
      requires Valid()
      modifies this
      ensures Valid() && (db, r) == DurableTables.ReserveAction(old(db), runId, step, tool, arguments)
    {
      if runId !in runs { return Err(RunNotFound); }
      match MakeActionKey(runId, step, tool, arguments)
      case None => return Err(ValueError);
      case Some(key) =>
        if key in receipts {
          return Ok(Reservation(key, false, receipts[key].status, receipts[key].outcome));
        }
        receipts := receipts[key := Receipt(runId, ActionPending, None)];
        db := db.(receipts := receipts);
        return Ok(Reservation(key, true, ActionPending, None));
    }

    method CompleteAction(key: ActionKey, outcome: Json) returns (r: Result<Option<Json>>)
      requires Valid()
      modifies this
      ensures Valid() && (db, r) == DurableTables.CompleteAction(old(db), key, outcome)
    {
      if key !in receipts { return Err(UnknownReceipt); }
      if receipts[key].status == ActionCompleted { return Ok(receipts[key].outcome); }
      if receipts[key].status != ActionPending { return Err(NotPending); }
      receipts := receipts[key := receipts[key].(status := ActionCompleted, outcome := Some(outcome))];
      db := db.(receipts := receipts);
      r := Ok(Some(outcome));
    }

    method FailAction(key: ActionKey, errorType: string, message: string) returns (error: Option<Error>)
      requires Valid()
      modifies this
      ensures Valid() && (db, error) == DurableTables.FailAction(old(db), key, errorType, message)
    {
      if Blank(errorType) || Blank(message) { return Some(ValueError); }
      if key !in receipts || receipts[key].status != ActionPending { return Some(NotPending); }
      receipts := receipts[key := receipts[key].(status := ActionFailed,
                                                outcome := Some(FailureOutcome(errorType, message)))];
      db := db.(receipts := receipts);
      error := None;
    }

    method AppendEvent(runId: string, eventType: string, payload: Metadata, terminal: bool, now: Time)
      returns (error: Option<Error>)
      requires Valid()
      modifies this
      ensures Valid() && (db, error) == ApplyTo(old(db), runId, Append(eventType, payload, terminal, now))
    {
      if Blank(eventType) { return Some(ValueError); }
      if runId !in runs { return Some(RunNotFound); }
      var last := LastSequence(runId);
      WriteEvent(runId, last + 1, NamedEvent(Prefix(Strip(eventType), 160)), payload, terminal, now);
      error := None;
    }

    method MergeMetadata(runId: string, patch: Metadata, now: Time) returns (error: Option<Error>)
      requires Valid()
      modifies this
      ensures Valid() && (db, error) == ApplyTo(old(db), runId, Merge(patch, now))
    {
      if runId !in runs { return Some(RunNotFound); }
      WriteRow(runId, runs[runId].(metadata := runs[runId].metadata + patch, updatedAt := now));
      error := None;
    }

    method RequestCancellation(runId: string, reason: string, actor: string, now: Time) returns (error: Option<Error>)
      requires Valid()
      modifies this
      ensures Valid() && (db, error) == ApplyTo(old(db), runId, RunOp.Cancel(reason, actor, now))
    {
      if Blank(reason) || Blank(actor) { return Some(ValueError); }
      if runId !in runs { return Some(RunNotFound); }
      var current := runs[runId].state;
      if Terminal(current) { return Some(InvalidTransition); }
      if current == Cancelling {
        assert db.runs == db.runs[runId := db.runs[runId]];
        return None;
      }
      WriteCancellation(runId, Strip(reason), Strip(actor), now);
      error := None;
    }

    /** The writes of a cancellation of a queued or running run. */
    method WriteCancellation(runId: string, why: string, actor: string, now: Time)
      requires Valid() && runId in runs && runs[runId].state in {Queued, Running}
      modifies this
      ensures Valid() && db == With(old(db), runId, Cancelled(old(db).runs[runId], why, actor, now))
    {
      ghost var base := db;
      ghost var r := base.runs[runId];
      assert r.row == runs[runId];
      var current := runs[runId].state;
      var next := if current == Queued then Stopped else Cancelling;
      var row := runs[runId].(state := next, version := runs[runId].version + 1, updatedAt := now,
                              terminalReason := if Terminal(next) then Some(why) else None,
                              metadata := runs[runId].metadata[StopReason := Text(why)]);
      var entry := LogRow(Some(current), next, row.version, why, actor, now);
      CancelledWrites(r, row, entry, why, actor, now);
      hide Valid, Cancelled, EmittedAll, CancelSpecs, MaxSequence;
      WriteMove(runId, row, entry, if next == Stopped then DropLease else KeepLease);
      ghost var moved := db.runs[runId];
      assert moved == Record(row, r.log + [entry], if next == Stopped then None else r.lease, r.events);
      var sequence := WriteEvents(runId, CancelSpecs(why, next == Stopped), now);
      WithTwice(base, runId, moved, db.runs[runId]);
    }

    /** INSERT of several events under consecutive sequence numbers. */
    method WriteEvents(id: string, specs: seq<EventSpec>, now: Time) returns (sequence: nat)
      requires Valid() && id in runs
      modifies this
      ensures Valid()
      ensures db == With(old(db), id, EmittedAll(old(db).runs[id], specs, now))
      ensures sequence == MaxSequence(db.runs[id].events)
    {
      ghost var base, r := db, db.runs[id];
      assert With(base, id, r) == base;
      sequence := LastSequence(id);
      for i := 0 to |specs|
        invariant Valid() && db == With(base, id, EmittedAll(r, specs[..i], now))
        invariant sequence == MaxSequence(db.runs[id].events)
      {
        ghost var m := db.runs[id];
        sequence := sequence + 1;
        assert specs[..i + 1][..i] == specs[..i];
        WriteEvent(id, sequence, specs[i].0, specs[i].1, specs[i].2, now);
        WithTwice(base, id, m, db.runs[id]);
      }
      assert specs[..|specs|] == specs;
    }

    method FinalizeRun(runId: string, worker: string, requested: RunState, reason: string, patch: Metadata,
                       eventType: string, payload: Metadata, now: Time) returns (error: Option<Error>)
      requires Valid()
      modifies this
      ensures Valid()
      ensures (db, error)
              == ApplyTo(old(db), runId, Finalize(worker, requested, reason, patch, eventType, payload, now))
    {
      hide Closed, FinalMetadata, WithTimeout, Strip, Blank;
      if Blank(worker) || !Terminal(requested) || Blank(reason) || Blank(eventType) { return Some(ValueError); }
      if runId !in runs { return Some(RunNotFound); }
      ghost var before := db.runs[runId];
      assert db.runs == db.runs[runId := before];
      var row := runs[runId];
      assert before.row == row && runId in db.runs && before.lease == if runId in leases then Some(leases[runId]) else None;
      hide Joins;
      if Terminal(row.state) { return None; }
      if runId !in leases || leases[runId].worker != Strip(worker) || leases[runId].expiresAt <= now {
        return Some(LeaseConflict);
      }
      var state, why := requested, Strip(reason);
      if row.state == Cancelling {
        if StopReason in row.metadata && row.metadata[StopReason].Text? && !Blank(row.metadata[StopReason].text) {
          why := Strip(row.metadata[StopReason].text);
        }
        state := if why == "run_timeout" then Failed else Stopped;
      }
      assert why == FinalReason(before, reason) && state == FinalState(before, requested, reason);
      if state !in AllowedNext(row.state) { return Some(InvalidTransition); }
      var metadata := MergeFinal(row.metadata, patch, why);
      FinalizeWrites(db, runId, Finalize(worker, requested, reason, patch, eventType, payload, now));
      hide ApplyTo;
      Close(runId, state, why, Strip(worker), metadata, Prefix(Strip(eventType), 160), payload, now);
      error := None;
    }

    /** The metadata of a finalized run: the patch, its stop reason, and the timeout error. */
    method MergeFinal(metadata: Metadata, patch: Metadata, why: string) returns (m: Metadata)
      ensures m == WithTimeout((metadata + patch)[StopReason := Text(why)], why)
    {
      m := (metadata + patch)[StopReason := Text(why)];
      if why == "run_timeout" {
        if !(ErrorField in m && m[ErrorField].Object? && Code in m[ErrorField].fields
             && m[ErrorField].fields[Code] == Text("run_timeout")) {
          m := m[ErrorField := Object(map[Code := Text("run_timeout"),
                                          Message := Text("run exceeded whole-run timeout")])];
        }
      }
    }

    /** The writes of a finalization. */
    method Close(runId: string, state: RunState, why: string, actor: string, metadata: Metadata,
                 eventName: string, payload: Metadata, now: Time)
      requires Valid() && runId in runs && Terminal(state)
      modifies this
      ensures Valid()
      ensures db == With(old(db), runId,
                             Closed(old(db).runs[runId], state, why, actor, metadata, NamedEvent(eventName), payload, now))
    {
      ghost var base := db;
      ghost var r := base.runs[runId];
      assert r.row == runs[runId];
      var row := runs[runId].(state := state, version := runs[runId].version + 1, updatedAt := now,
                              terminalReason := Some(why), metadata := metadata);
      var entry := LogRow(Some(runs[runId].state), state, row.version, why, actor, now);
      ClosedWrites(r, row, entry, NamedEvent(eventName), payload, now);
      hide Valid, Closed, Emitted, MaxSequence;
      WriteMove(runId, row, entry, DropLease);
      ghost var m := db.runs[runId];
      var last := LastSequence(runId);
      WriteEvent(runId, last + 1, NamedEvent(eventName),
                 payload[Status := StateName(state)][StopReason := Text(why)], true, now);
      WithTwice(base, runId, m, db.runs[runId]);
    }
  }

  lemma ClosedWrites(r: Record, row: Run, entry: LogRow, eventType: EventType, payload: Metadata, now: Time)
    requires Terminal(row.state) && row.terminalReason.Some?
    requires row == r.row.(state := row.state, version := r.row.version + 1, updatedAt := now,
                           terminalReason := row.terminalReason, metadata := row.metadata)
    requires entry == LogRow(Some(r.row.state), row.state, row.version, row.terminalReason.value, entry.actor, now)
    ensures Emitted(Record(row, r.log + [entry], None, r.events), eventType,
                    payload[Status := StateName(row.state)][StopReason := Text(entry.reason)], true, now)
            == Closed(r, row.state, entry.reason, entry.actor, row.metadata, eventType, payload, now)
  {
  }

  /** The public events of a cancellation. */
  function CancelSpecs(why: string, stopped: bool): seq<EventSpec> {
    if stopped then
      [(CancelRequestedEvent, map[Reason := Text(why)], false),
       (StoppedEvent, map[Reason := Text(why), Phase := Text("queued")], true)]
    else [(CancelRequestedEvent, map[Reason := Text(why)], false)]
  }

  type EventSpec = (EventType, Metadata, bool)

  ghost function EmittedAll(r: Record, specs: seq<EventSpec>, now: Time): Record {
    if specs == [] then r
    else
      var s := specs[|specs| - 1];
      Emitted(EmittedAll(r, specs[..|specs| - 1], now), s.0, s.1, s.2, now)
  }

  lemma EmittedTwo(m: Record, a: EventSpec, b: EventSpec, now: Time)
    ensures EmittedAll(m, [a], now) == Emitted(m, a.0, a.1, a.2, now)
    ensures EmittedAll(m, [a, b], now) == Emitted(Emitted(m, a.0, a.1, a.2, now), b.0, b.1, b.2, now)
  {
    assert [a][..0] == [] && [a, b][..1] == [a];
  }

  lemma CancelledWrites(r: Record, row: Run, entry: LogRow, why: string, actor: string, now: Time)
    requires r.row.state in {Queued, Running}
    requires var next := if r.row.state == Queued then Stopped else Cancelling;
             && row == r.row.(state := next, version := r.row.version + 1, updatedAt := now,
                              terminalReason := if Terminal(next) then Some(why) else None,
                              metadata := r.row.metadata[StopReason := Text(why)])
             && entry == LogRow(Some(r.row.state), next, row.version, why, actor, now)
    ensures var m := Record(row, r.log + [entry], if row.state == Stopped then None else r.lease, r.events);
            EmittedAll(m, CancelSpecs(why, row.state == Stopped), now) == Cancelled(r, why, actor, now)
  {
    var m := Record(row, r.log + [entry], if row.state == Stopped then None else r.lease, r.events);
    var a: EventSpec := (CancelRequestedEvent, map[Reason := Text(why)], false);
    var b: EventSpec := (StoppedEvent, map[Reason := Text(why), Phase := Text("queued")], true);
    EmittedTwo(m, a, b, now);
  }
}
