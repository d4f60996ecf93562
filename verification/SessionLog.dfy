// The session log and safe resume: sequences allocated under one writer, duplicates answered
// with the original, and a resume decision that is the same however often it is asked for.

module SessionLog {
  import opened Common
  import opened Lists
  import opened Ordering

  datatype Kind =
    | ToolStarted | ToolCompleted | ToolFailed | ToolCancelled | PermissionDenied
    | ModelCompleted | ModelFailed | NodeCompleted
    | FlowStopped | RunCompleted | RunFailed | RunCancelled
    | ResumeStarted | ResumeBlocked | ResumeReconstructed | OtherKind(name: string)

  /** The payload fields that identify a tool call. */
  datatype Payload = Payload(
    callId: Option<string>, toolCallId: Option<string>, tool: Option<string>, callIndex: Option<string>)

  const Empty := Payload(None, None, None, None)

  datatype Event = Event(id: string, run: string, sequence: nat, kind: Kind, payload: Payload, key: Option<string>)

  type Log = seq<Event>

  // ---- allocation ----

  predicate Matches(e: Event, id: string, run: string, key: Option<string>) {
    e.id == id || (e.run == run && key.Some? && e.key == key)
  }

  function Existing(log: Log, id: string, run: string, key: Option<string>): Option<Event> {
    if log == [] then None else if Matches(log[0], id, run, key) then Some(log[0]) else Existing(log[1..], id, run, key)
  }

  function LastSequence(log: Log, run: string): nat {
    if log == [] then 0
    else
      var rest := LastSequence(log[..|log| - 1], run);
      var e := log[|log| - 1];
      if e.run == run && e.sequence > rest then e.sequence else rest
  }

  datatype Appended = Appended(log: Log, appended: bool, sequence: nat)

  /** append_event_with_auto_sequence: one transaction. */
  function Append(log: Log, id: string, run: string, kind: Kind, payload: Payload, key: Option<string>): Appended {
    match Existing(log, id, run, key)
    case Some(e) => Appended(log, false, e.sequence)
    case None =>
      var n := LastSequence(log, run) + 1;
      Appended(log + [Event(id, run, n, kind, payload, key)], true, n)
  }

  function OfRun(run: string): Event -> bool {
    (e: Event) => e.run == run
  }

  /** The events of a run, in the order of their sequences. */
  function EventsOf(log: Log, run: string): seq<Event> {
    Filter(log, OfRun(run))
  }

  ghost predicate NumberedRun(log: Log, run: string) {
    forall i :: 0 <= i < |EventsOf(log, run)| ==> EventsOf(log, run)[i].sequence == i + 1
  }

  /** Every run's sequences are 1 .. n, and no id, and no key within a run, occurs twice. */
  ghost predicate LogOk(log: Log) {
    && (forall run :: NumberedRun(log, run))
    && (forall i, j :: 0 <= i < j < |log| ==> log[i].id != log[j].id)
    && (forall i, j :: 0 <= i < j < |log| ==> log[i].run == log[j].run && log[i].key.Some? ==> log[i].key != log[j].key)
  }

  lemma EventsPush(log: Log, e: Event, run: string)
    ensures EventsOf(log + [e], run) == if e.run == run then EventsOf(log, run) + [e] else EventsOf(log, run)
  {
    assert (log + [e])[..|log|] == log;
  }

  lemma {:induction false} LastIs(log: Log, run: string)
    requires NumberedRun(log, run)
    ensures LastSequence(log, run) == |EventsOf(log, run)|
  {
    if log != [] {
      var n := |log| - 1;
      var front, e := log[..n], log[n];
      assert log == front + [e];
      EventsPush(front, e, run);
      forall i | 0 <= i < |EventsOf(front, run)| ensures EventsOf(front, run)[i].sequence == i + 1 {
        assert EventsOf(log, run)[i] == EventsOf(front, run)[i];
      }
      LastIs(front, run);
      if e.run == run { assert EventsOf(log, run)[|EventsOf(front, run)|] == e; }
    }
  }

  lemma {:induction false} ExistingIs(log: Log, id: string, run: string, key: Option<string>)
    ensures match Existing(log, id, run, key)
            case None => forall i :: 0 <= i < |log| ==> !Matches(log[i], id, run, key)
            case Some(e) => e in log && Matches(e, id, run, key)
  {
    if log != [] && !Matches(log[0], id, run, key) { ExistingIs(log[1..], id, run, key); }
  }

  /** Appending, by whatever caller, keeps every run's sequences contiguous. */
  lemma AppendOk(log: Log, id: string, run: string, kind: Kind, payload: Payload, key: Option<string>)
    requires LogOk(log)
    ensures LogOk(Append(log, id, run, kind, payload, key).log)
  {
    ExistingIs(log, id, run, key);
    if Existing(log, id, run, key).None? {
      assert NumberedRun(log, run);
      LastIs(log, run);
      var e := Event(id, run, LastSequence(log, run) + 1, kind, payload, key);
      forall r ensures NumberedRun(log + [e], r) {
        assert NumberedRun(log, r);
        EventsPush(log, e, r);
      }
    }
  }

  datatype Request = Request(id: string, run: string, kind: Kind, payload: Payload, key: Option<string>)

  function AppendAll(rs: seq<Request>): Log {
    if rs == [] then []
    else
      var r := rs[|rs| - 1];
      Append(AppendAll(rs[..|rs| - 1]), r.id, r.run, r.kind, r.payload, r.key).log
  }

  /** Whatever is appended, in whatever order and however often, every run's sequences are
      1 .. n and no id or key of a run is recorded twice. */
  lemma {:induction false} EveryLogOk(rs: seq<Request>)
    ensures LogOk(AppendAll(rs))
  {
    if rs == [] {
      forall run ensures NumberedRun([], run) {}
    } else {
      var r := rs[|rs| - 1];
      EveryLogOk(rs[..|rs| - 1]);
      AppendOk(AppendAll(rs[..|rs| - 1]), r.id, r.run, r.kind, r.payload, r.key);
    }
  }

  /** A repeated append, by id or by key, changes nothing and answers with the first sequence. */
  lemma AppendTwice(log: Log, id: string, run: string, kind: Kind, payload: Payload, key: Option<string>,
                    id2: string, kind2: Kind, payload2: Payload, key2: Option<string>)
    requires LogOk(log) && Append(log, id, run, kind, payload, key).appended
    requires (id2 == id && (key2.None? || key2 == key)) || (key2.Some? && key2 == key && forall i :: 0 <= i < |log| ==> log[i].id != id2)
    ensures var first := Append(log, id, run, kind, payload, key);
            Append(first.log, id2, run, kind2, payload2, key2) == Appended(first.log, false, first.sequence)
  {
    ExistingIs(log, id, run, key);
    var e := Event(id, run, LastSequence(log, run) + 1, kind, payload, key);
    ExistingPush(log, e, id2, run, key2);
  }

  lemma {:induction false} ExistingPush(log: Log, e: Event, id: string, run: string, key: Option<string>)
    requires Matches(e, id, run, key) && forall i :: 0 <= i < |log| ==> !Matches(log[i], id, run, key)
    ensures Existing(log + [e], id, run, key) == Some(e)
  {
    if log != [] {
      assert (log + [e])[1..] == log[1..] + [e];
      ExistingPush(log[1..], e, id, run, key);
    }
  }

  // ---- reconstruction ----

  datatype Identity = ById(text: string) | ByIndex(text: string) | ByEvent(text: string)

  function NamedId(p: Payload): Option<string> {
    if p.callId.Some? && !Blank(p.callId.value) then Some(Strip(p.callId.value))
    else if p.toolCallId.Some? && !Blank(p.toolCallId.value) then Some(Strip(p.toolCallId.value))
    else None
  }

  function IdentityOf(e: Event): Identity {
    match NamedId(e.payload)
    case Some(id) => ById(id)
    case None =>
      if e.payload.tool.Some? && e.payload.callIndex.Some? then ByIndex(e.payload.tool.value + ":" + e.payload.callIndex.value)
      else ByEvent(e.id)
  }

  function Display(i: Identity, e: Event): string {
    match NamedId(e.payload)
    case Some(id) => id
    case None => match i case ById(t) => "id:" + t case ByIndex(t) => t case ByEvent(t) => "event:" + t
  }

  predicate Resolves(k: Kind) { k in {ToolCompleted, ToolFailed, PermissionDenied} }

  predicate Completes(k: Kind) {
    k in {ModelCompleted, ModelFailed, ToolCompleted, ToolFailed, ToolCancelled, PermissionDenied, NodeCompleted}
  }

  predicate Terminates(k: Kind) { k in {FlowStopped, RunCompleted, RunFailed, RunCancelled} }

  /** A dictionary in insertion order. */
  type Started = seq<(Identity, Event)>

  function Note(s: Started, i: Identity, e: Event): Started {
    if s == [] then [(i, e)] else if s[0].0 == i then [(i, e)] + s[1..] else [s[0]] + Note(s[1..], i, e)
  }

  datatype Scan = Scan(started: Started, resolved: set<Identity>, lastCompleted: nat, terminal: bool)

  function ScanStep(s: Scan, e: Event): Scan {
    Scan(if e.kind == ToolStarted then Note(s.started, IdentityOf(e), e) else s.started,
         if Resolves(e.kind) then s.resolved + {IdentityOf(e)} else s.resolved,
         if Completes(e.kind) && e.sequence > s.lastCompleted then e.sequence else s.lastCompleted,
         s.terminal || Terminates(e.kind))
  }

  function ScanAll(events: seq<Event>): Scan {
    if events == [] then Scan([], {}, 0, false) else ScanStep(ScanAll(events[..|events| - 1]), events[|events| - 1])
  }

  function Unresolved(s: Started, resolved: set<Identity>): seq<string> {
    if s == [] then []
    else
      (if s[0].0 in resolved then [] else [Display(s[0].0, s[0].1)]) + Unresolved(s[1..], resolved)
  }

  datatype Status = TerminalNoop | ManualReview | Resumable

  datatype Decision = Decision(status: Status, lastSafe: nat, ambiguous: seq<string>)

  /** The decision on a run's events; ended is the run's own end mark. */
  function Decide(events: seq<Event>, ended: bool): Decision {
    var s := ScanAll(events);
    var ambiguous := Sort(Unresolved(s.started, s.resolved), Before);
    if ended || s.terminal then Decision(TerminalNoop, s.lastCompleted, [])
    else if ambiguous != [] then Decision(ManualReview, s.lastCompleted, ambiguous)
    else Decision(Resumable, s.lastCompleted, [])
  }

  function Emit(log: Log, run: string, kind: Kind, key: string, id: string): Log {
    Append(log, id, run, kind, Empty, Some(key)).log
  }

  /** resume: decides, and records the attempt under keys that make it idempotent. */
  function ResumeRun(log: Log, run: string, ended: bool, id1: string, id2: string): (Log, Decision) {
    var d := Decide(EventsOf(log, run), ended);
    match d.status
    case TerminalNoop => (log, d)
    case ManualReview =>
      (Emit(Emit(log, run, ResumeStarted, "resume-start:" + run, id1), run, ResumeBlocked, "resume-blocked:" + run, id2), d)
    case Resumable =>
      (Emit(Emit(log, run, ResumeStarted, "resume-start:" + run, id1), run, ResumeReconstructed,
            "resume-reconstructed:" + run, id2), d)
  }

  // ---- when a run can resume by itself ----

  ghost predicate WasStarted(events: seq<Event>, i: Identity) {
    exists k :: 0 <= k < |events| && events[k].kind == ToolStarted && IdentityOf(events[k]) == i
  }

  ghost predicate WasResolved(events: seq<Event>, i: Identity) {
    exists k :: 0 <= k < |events| && Resolves(events[k].kind) && IdentityOf(events[k]) == i
  }

  ghost predicate WasTerminated(events: seq<Event>) {
    exists k :: 0 <= k < |events| && Terminates(events[k].kind)
  }

  predicate InDictionary(s: Started, i: Identity) {
    s != [] && (s[0].0 == i || InDictionary(s[1..], i))
  }

  lemma {:induction false} NoteKeys(s: Started, i: Identity, e: Event, j: Identity)
    ensures InDictionary(Note(s, i, e), j) <==> j == i || InDictionary(s, j)
  {
    if s != [] {
      if s[0].0 != i {
        NoteKeys(s[1..], i, e, j);
        assert Note(s, i, e)[1..] == Note(s[1..], i, e);
      } else {
        assert Note(s, i, e)[1..] == s[1..];
      }
    }
  }

  lemma {:induction false} ScanMeans(events: seq<Event>)
    ensures var s := ScanAll(events);
            && (forall i :: InDictionary(s.started, i) <==> WasStarted(events, i))
            && (forall i :: i in s.resolved <==> WasResolved(events, i))
            && (s.terminal <==> WasTerminated(events))
  {
    if events != [] {
      var n := |events| - 1;
      var front, e := events[..n], events[n];
      ScanMeans(front);
      assert forall k :: 0 <= k < n ==> front[k] == events[k];
      forall i ensures WasStarted(events, i) <==> WasStarted(front, i) || (e.kind == ToolStarted && IdentityOf(e) == i) {
        if WasStarted(front, i) {
          var k :| 0 <= k < n && front[k].kind == ToolStarted && IdentityOf(front[k]) == i;
          assert events[k].kind == ToolStarted;
        }
      }
      forall i ensures WasResolved(events, i) <==> WasResolved(front, i) || (Resolves(e.kind) && IdentityOf(e) == i) {
        if WasResolved(front, i) {
          var k :| 0 <= k < n && Resolves(front[k].kind) && IdentityOf(front[k]) == i;
          assert Resolves(events[k].kind);
        }
      }
      assert WasTerminated(events) <==> WasTerminated(front) || Terminates(e.kind) by {
        if WasTerminated(front) {
          var k :| 0 <= k < n && Terminates(front[k].kind);
          assert Terminates(events[k].kind);
        }
      }
      hide WasStarted, WasResolved, WasTerminated, IdentityOf;
      forall i ensures InDictionary(ScanAll(events).started, i) <==> WasStarted(events, i) {
        NoteKeys(ScanAll(front).started, IdentityOf(e), e, i);
      }
    }
  }

  lemma {:induction false} NothingUnresolved(s: Started, resolved: set<Identity>)
    ensures Unresolved(s, resolved) == [] <==> forall i :: InDictionary(s, i) ==> i in resolved
  {
    if s != [] {
      NothingUnresolved(s[1..], resolved);
      assert InDictionary(s, s[0].0);
      assert forall i :: InDictionary(s[1..], i) ==> InDictionary(s, i);
    }
  }

  /** A run resumes by itself iff it has not ended and every tool call it started has a
      completed, failed or denied event. */
  lemma ResumableIff(events: seq<Event>, ended: bool)
    ensures Decide(events, ended).status == Resumable <==>
              && !ended && !WasTerminated(events)
              && forall i :: WasStarted(events, i) ==> WasResolved(events, i)
  {
    ScanMeans(events);
    var s := ScanAll(events);
    NothingUnresolved(s.started, s.resolved);
    hide ScanAll, InDictionary, WasStarted, WasResolved, WasTerminated, Unresolved;
    var u := Unresolved(s.started, s.resolved);
    assert |Sort(u, Before)| == |u|;
    if exists i :: WasStarted(events, i) && !WasResolved(events, i) {
      var i :| WasStarted(events, i) && !WasResolved(events, i);
      assert InDictionary(s.started, i) && i !in s.resolved;
    } else {
      forall i | InDictionary(s.started, i) ensures i in s.resolved { assert WasStarted(events, i) && WasResolved(events, i); }
    }
  }

  // ---- asking again ----

  predicate Bookkeeping(k: Kind) { k in {ResumeStarted, ResumeBlocked, ResumeReconstructed} }

  lemma {:induction false} ScanIgnores(events: seq<Event>, e: Event)
    requires Bookkeeping(e.kind)
    ensures ScanAll(events + [e]) == ScanAll(events)
  {
    hide IdentityOf, Note;
    assert (events + [e])[..|events|] == events && (events + [e])[|events|] == e;
  }

  /** Recording the attempt does not change what a later attempt sees. */
  lemma EmitIgnored(log: Log, run: string, kind: Kind, key: string, id: string, ended: bool)
    requires Bookkeeping(kind)
    ensures Decide(EventsOf(Emit(log, run, kind, key, id), run), ended) == Decide(EventsOf(log, run), ended)
  {
    var n := LastSequence(log, run) + 1;
    var e := Event(id, run, n, kind, Empty, Some(key));
    EventsPush(log, e, run);
    hide EventsOf, ScanAll, LastSequence, Existing;
    assert EventsOf(Emit(log, run, kind, key, id), run) in {EventsOf(log, run), EventsOf(log, run) + [e]};
    hide Emit, Decide;
    DecisionIgnores(EventsOf(log, run), e, ended);
  }

  lemma DecisionIgnores(events: seq<Event>, e: Event, ended: bool)
    requires Bookkeeping(e.kind)
    ensures Decide(events + [e], ended) == Decide(events, ended)
  {
    hide ScanAll, Unresolved, Sort;
    ScanIgnores(events, e);
  }

  predicate HasKey(log: Log, run: string, key: string) {
    exists i :: 0 <= i < |log| && log[i].run == run && log[i].key == Some(key)
  }

  lemma EmitHasKey(log: Log, run: string, kind: Kind, key: string, id: string)
    requires forall i :: 0 <= i < |log| ==> log[i].id != id
    ensures HasKey(Emit(log, run, kind, key, id), run, key)
  {
    ExistingIs(log, id, run, Some(key));
    match Existing(log, id, run, Some(key))
    case Some(e) =>
      var i :| 0 <= i < |log| && log[i] == e;
      assert log[i].run == run && log[i].key == Some(key);
    case None =>
      var all := Emit(log, run, kind, key, id);
      assert all[|log|].run == run && all[|log|].key == Some(key);
  }

  lemma EmitKeepsKey(log: Log, run: string, kind: Kind, key: string, id: string, other: string)
    requires HasKey(log, run, other)
    ensures HasKey(Emit(log, run, kind, key, id), run, other)
  {
    var i :| 0 <= i < |log| && log[i].run == run && log[i].key == Some(other);
    var all := Emit(log, run, kind, key, id);
    assert all[i] == log[i];
  }

  lemma EmitAgain(log: Log, run: string, kind: Kind, key: string, id: string)
    requires HasKey(log, run, key)
    ensures Emit(log, run, kind, key, id) == log
  {
    ExistingIs(log, id, run, Some(key));
  }

  lemma NewId(log: Log, run: string, kind: Kind, key: string, id: string, other: string)
    requires other != id && forall i :: 0 <= i < |log| ==> log[i].id != other
    ensures var all := Emit(log, run, kind, key, id); forall i :: 0 <= i < |all| ==> all[i].id != other
  {
  }

  /** The second event that resume records, for its decision. */
  function Recorded(run: string, s: Status): (Kind, string) {
    if s == ManualReview then (ResumeBlocked, "resume-blocked:" + run) else (ResumeReconstructed, "resume-reconstructed:" + run)
  }

  /** With no other event in between, resuming again gives the same decision and appends
      nothing. */
  lemma ResumeIsIdempotent(log: Log, run: string, ended: bool, id1: string, id2: string, id3: string, id4: string)
    requires id1 != id2 && forall i :: 0 <= i < |log| ==> log[i].id != id1 && log[i].id != id2
    ensures var (once, d) := ResumeRun(log, run, ended, id1, id2);
            ResumeRun(once, run, ended, id3, id4) == (once, d)
  {
    var d := Decide(EventsOf(log, run), ended);
    if d.status != TerminalNoop {
      var (kind, key) := Recorded(run, d.status);
      var start := "resume-start:" + run;
      hide Decide, EventsOf, Emit, HasKey;
      var mid := Emit(log, run, ResumeStarted, start, id1);
      var once := Emit(mid, run, kind, key, id2);
      EmitIgnored(log, run, ResumeStarted, start, id1, ended);
      EmitIgnored(mid, run, kind, key, id2, ended);
      EmitHasKey(log, run, ResumeStarted, start, id1);
      NewId(log, run, ResumeStarted, start, id1, id2);
      EmitHasKey(mid, run, kind, key, id2);
      EmitKeepsKey(mid, run, kind, key, id2, start);
      EmitAgain(once, run, ResumeStarted, start, id3);
      EmitAgain(once, run, kind, key, id4);
    }
  }

  lemma {:induction false} AppendsGrow(rs: seq<Request>, more: seq<Request>)
    ensures AppendAll(rs) <= AppendAll(rs + more)
  {
    if more == [] {
      assert rs + more == rs;
    } else {
      var n := |more| - 1;
      assert rs + more == (rs + more[..n]) + [more[n]];
      AppendsGrow(rs, more[..n]);
      hide Existing, LastSequence;
    }
  }

  lemma StaysTerminated(a: Log, b: Log, run: string)
    requires a <= b && WasTerminated(EventsOf(a, run))
    ensures WasTerminated(EventsOf(b, run))
  {
    assert b == a + b[|a|..];
    FilterConcat(a, b[|a|..], OfRun(run));
    hide Filter;
    var k :| 0 <= k < |EventsOf(a, run)| && Terminates(EventsOf(a, run)[k].kind);
    assert EventsOf(b, run)[k] == EventsOf(a, run)[k];
  }

  /** Once a run is marked as ended, or has recorded an ending, resuming it is a no-op, whatever
      is appended afterwards. */
  lemma ClosedStaysClosed(rs: seq<Request>, more: seq<Request>, run: string, ended: bool, id1: string, id2: string)
    requires ended || WasTerminated(EventsOf(AppendAll(rs), run))
    ensures var log := AppendAll(rs + more);
            ResumeRun(log, run, ended, id1, id2).0 == log && ResumeRun(log, run, ended, id1, id2).1.status == TerminalNoop
  {
    var log := AppendAll(rs + more);
    AppendsGrow(rs, more);
    if !ended { StaysTerminated(AppendAll(rs), log, run); }
    ScanMeans(EventsOf(log, run));
    hide ScanAll, WasTerminated, WasStarted, WasResolved, InDictionary, EventsOf, AppendAll, Unresolved;
  }

  // ---- the service as it is written ----

  class SessionService {
    const run: string
    var log: Log
    var ended: bool
    var closed: bool

    constructor (run: string)
      ensures this.run == run && log == [] && !ended && !closed
    {
      this.run := run;
      log, ended, closed := [], false, false;
    }

    method AppendWithAutoSequence(id: string, kind: Kind, payload: Payload, key: Option<string>)
      returns (appended: bool, sequence: nat)
      modifies this`log
      ensures Appended(log, appended, sequence) == Append(old(log), id, run, kind, payload, key)
    {
      var i := 0;
      while i < |log|
        invariant 0 <= i <= |log| && Existing(log[i..], id, run, key) == Existing(log, id, run, key)
      {
        if Matches(log[i], id, run, key) { return false, log[i].sequence; }
        assert log[i..][1..] == log[i + 1..];
        i := i + 1;
      }
      var last := 0;
      for j := 0 to |log|
        invariant last == LastSequence(log[..j], run)
      {
        assert log[..j + 1][..j] == log[..j];
        if log[j].run == run && log[j].sequence > last { last := log[j].sequence; }
      }
      assert log[..|log|] == log;
      log := log + [Event(id, run, last + 1, kind, payload, key)];
      return true, last + 1;
    }

    /** Which tool calls were started and resolved, and the last completed boundary. */
    method Reconstruct() returns (s: Scan)
      ensures s == ScanAll(EventsOf(log, run))
    {
      var events := EventsOf(log, run);
      var started: Started, resolved: set<Identity>, last, terminal := [], {}, 0, false;
      for i := 0 to |events|
        invariant Scan(started, resolved, last, terminal) == ScanAll(events[..i])
      {
        assert events[..i + 1][..i] == events[..i];
        var e := events[i];
        hide IdentityOf, Note;
        if Completes(e.kind) && e.sequence > last { last := e.sequence; }
        if e.kind == ToolStarted {
          started := Note(started, IdentityOf(e), e);
        } else if Resolves(e.kind) {
          resolved := resolved + {IdentityOf(e)};
        }
        if Terminates(e.kind) { terminal := true; }
      }
      assert events[..|events|] == events;
      s := Scan(started, resolved, last, terminal);
    }

    method Resume(id1: string, id2: string) returns (d: Decision)
      modifies this`log
      ensures (log, d) == ResumeRun(old(log), run, ended, id1, id2)
    {
      hide ScanAll, EventsOf, Append;
      var s := Reconstruct();
      if ended || s.terminal { return Decision(TerminalNoop, s.lastCompleted, []); }
      var ambiguous := Sort(Unresolved(s.started, s.resolved), Before);
      var added, n := AppendWithAutoSequence(id1, ResumeStarted, Empty, Some("resume-start:" + run));
      if ambiguous != [] {
        added, n := AppendWithAutoSequence(id2, ResumeBlocked, Empty, Some("resume-blocked:" + run));
        return Decision(ManualReview, s.lastCompleted, ambiguous);
      }
      added, n := AppendWithAutoSequence(id2, ResumeReconstructed, Empty, Some("resume-reconstructed:" + run));
      return Decision(Resumable, s.lastCompleted, []);
    }

    /** Marks the run as ended first and records the event after; a second call does nothing. */
    method Close(id: string)
      modifies this
      ensures closed
      ensures old(closed) ==> log == old(log) && ended == old(ended)
      ensures !old(closed) ==> ended && log == Append(old(log), id, run, FlowStopped, Empty, None).log
    {
      if closed { return; }
      closed := true;
      ended := true;
      var added, n := AppendWithAutoSequence(id, FlowStopped, Empty, None);
    }
  }
}
