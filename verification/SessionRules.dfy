// What the session log records and what a resume decides, said of the fields of the events.

module SessionRules {
  import opened Common
  import opened Lists
  import opened Ordering
  import opened SessionLog

  // ---- appending ----

  /** An event that an append with this id and key repeats. */
  predicate Repeated(e: Event, id: string, run: string, key: Option<string>) {
    e.id == id || (key.Some? && e.run == run && e.key == key)
  }

  /** The first event that is repeated answers; otherwise the event is appended as it was given,
      with the number after those of its run. */
  lemma {:induction false} AppendIs(log: Log, id: string, run: string, kind: Kind, payload: Payload, key: Option<string>)
    requires LogOk(log)
    ensures var r := Append(log, id, run, kind, payload, key);
            && (r.appended <==> forall i :: 0 <= i < |log| ==> !Repeated(log[i], id, run, key))
            && (r.appended ==>
                  && r.sequence == |EventsOf(log, run)| + 1
                  && r.log == log + [Event(id, run, r.sequence, kind, payload, key)])
            && (!r.appended ==>
                  && r.log == log
                  && exists i :: && 0 <= i < |log| && Repeated(log[i], id, run, key) && r.sequence == log[i].sequence
                                 && forall j :: 0 <= j < i ==> !Repeated(log[j], id, run, key))
  {
    var i := FirstMatch(log, id, run, key);
    assert NumberedRun(log, run);
    LastIs(log, run);
    hide LogOk, NumberedRun, EventsOf, LastSequence, Existing;
  }

  lemma {:induction false} FirstMatch(log: Log, id: string, run: string, key: Option<string>) returns (i: nat)
    ensures i <= |log| && forall j :: 0 <= j < i ==> !Repeated(log[j], id, run, key)
    ensures i < |log| ==> Repeated(log[i], id, run, key) && Existing(log, id, run, key) == Some(log[i])
    ensures i == |log| ==> Existing(log, id, run, key) == None
  {
    i := 0;
    if log != [] && !Matches(log[0], id, run, key) {
      var rest := FirstMatch(log[1..], id, run, key);
      i := rest + 1;
      assert forall j :: 0 < j < i ==> log[j] == log[1..][j - 1];
    }
  }

  // ---- which call an event is about ----

  predicate Text(t: Option<string>) {
    t.Some? && Strip(t.value) != ""
  }

  predicate HasCallId(p: Payload) {
    Text(p.callId) || Text(p.toolCallId)
  }

  /** The call id of a payload: call_id if it has one, else tool_call_id, without white space
      around it. */
  function CallId(p: Payload): string
    requires HasCallId(p)
  {
    if Text(p.callId) then Strip(p.callId.value) else Strip(p.toolCallId.value)
  }

  predicate HasIndex(p: Payload) {
    !HasCallId(p) && p.tool.Some? && p.callIndex.Some?
  }

  /** Two events are about one call: by the call id; or, if neither has one, by tool and index;
      or they are one event. */
  predicate SameCall(e: Event, f: Event) {
    if HasCallId(e.payload) then HasCallId(f.payload) && CallId(e.payload) == CallId(f.payload)
    else if HasIndex(e.payload) then
      && HasIndex(f.payload)
      && e.payload.tool.value + ":" + e.payload.callIndex.value == f.payload.tool.value + ":" + f.payload.callIndex.value
    else !HasCallId(f.payload) && !HasIndex(f.payload) && e.id == f.id
  }

  /** How a call is named to whoever reviews it. */
  function CallName(e: Event): string {
    if HasCallId(e.payload) then CallId(e.payload)
    else if HasIndex(e.payload) then e.payload.tool.value + ":" + e.payload.callIndex.value
    else "event:" + e.id
  }

  lemma SameCallIff(e: Event, f: Event)
    ensures IdentityOf(e) == IdentityOf(f) <==> SameCall(e, f)
    ensures Display(IdentityOf(e), e) == CallName(e)
    ensures SameCall(e, f) ==> CallName(e) == CallName(f)
  {
    hide Strip;
  }

  // ---- the decision ----

  predicate Ends(k: Kind) {
    k == FlowStopped || k == RunCompleted || k == RunFailed || k == RunCancelled
  }

  /** A boundary at which work was done with, one way or another. */
  predicate Boundary(k: Kind) {
    || k == ModelCompleted || k == ModelFailed || k == NodeCompleted
    || k == ToolCompleted || k == ToolFailed || k == ToolCancelled || k == PermissionDenied
  }

  /** A started call at k that no later or earlier event says was completed, failed or denied;
      that it was cancelled does not resolve it. */
  ghost predicate Open(events: seq<Event>, k: nat) {
    && k < |events| && events[k].kind == ToolStarted
    && forall j :: 0 <= j < |events| && SameCall(events[k], events[j]) ==>
         events[j].kind != ToolCompleted && events[j].kind != ToolFailed && events[j].kind != PermissionDenied
  }

  lemma OpenIff(events: seq<Event>, k: nat)
    requires k < |events| && events[k].kind == ToolStarted
    ensures Open(events, k) <==> !WasResolved(events, IdentityOf(events[k]))
  {
    forall j | 0 <= j < |events| ensures IdentityOf(events[k]) == IdentityOf(events[j]) <==> SameCall(events[k], events[j]) {
      SameCallIff(events[k], events[j]);
    }
    hide IdentityOf, SameCall;
  }

  ghost predicate Ended(events: seq<Event>) {
    exists k :: 0 <= k < |events| && Ends(events[k].kind)
  }

  lemma EndedIff(events: seq<Event>)
    ensures Ended(events) <==> WasTerminated(events)
  {
    if Ended(events) {
      var k :| 0 <= k < |events| && Ends(events[k].kind);
      assert Terminates(events[k].kind);
    }
    if WasTerminated(events) {
      var k :| 0 <= k < |events| && Terminates(events[k].kind);
      assert Ends(events[k].kind);
    }
  }

  /** The status: an ended run is left alone; an open call needs a person; anything else resumes. */
  lemma StatusIs(events: seq<Event>, ended: bool)
    ensures var d := Decide(events, ended);
            && (d.status == TerminalNoop <==> ended || Ended(events))
            && (d.status == Resumable <==> !ended && !Ended(events) && forall k: nat :: !Open(events, k))
  {
    ResumableIff(events, ended);
    EndedIff(events);
    TerminalIff(events, ended);
    hide Decide, Open, WasTerminated, Ended, IdentityOf, WasResolved;
    forall k: nat | k < |events| && events[k].kind == ToolStarted
      ensures Open(events, k) <==> !WasResolved(events, IdentityOf(events[k]))
    {
      OpenIff(events, k);
    }
    forall k: nat | Open(events, k) ensures k < |events| && events[k].kind == ToolStarted { OpenStarted(events, k); }
    if i :| WasStarted(events, i) && !WasResolved(events, i) {
      var k :| 0 <= k < |events| && events[k].kind == ToolStarted && IdentityOf(events[k]) == i;
      assert Open(events, k);
    }
    forall k: nat | Open(events, k) ensures WasStarted(events, IdentityOf(events[k])) {}
  }

  lemma OpenStarted(events: seq<Event>, k: nat)
    requires Open(events, k)
    ensures k < |events| && events[k].kind == ToolStarted
  {
  }

  lemma TerminalIff(events: seq<Event>, ended: bool)
    ensures Decide(events, ended).status == TerminalNoop <==> ended || WasTerminated(events)
  {
    ScanMeans(events);
    hide ScanAll, WasTerminated, WasStarted, WasResolved, InDictionary, Unresolved;
  }

  /** The last safe point is the greatest number of a completed boundary, 0 without any. */
  lemma {:induction false} LastSafeIs(events: seq<Event>, ended: bool)
    ensures var last := Decide(events, ended).lastSafe;
            && (forall k :: 0 <= k < |events| && Boundary(events[k].kind) ==> events[k].sequence <= last)
            && (last == 0 || exists k :: 0 <= k < |events| && Boundary(events[k].kind) && events[k].sequence == last)
  {
    LastCompletedIs(events);
    hide ScanAll, Unresolved;
  }

  lemma {:induction false} LastCompletedIs(events: seq<Event>)
    ensures var last := ScanAll(events).lastCompleted;
            && (forall k :: 0 <= k < |events| && Boundary(events[k].kind) ==> events[k].sequence <= last)
            && (last == 0 || exists k :: 0 <= k < |events| && Boundary(events[k].kind) && events[k].sequence == last)
  {
    if events != [] {
      var n := |events| - 1;
      var front, e := events[..n], events[n];
      LastCompletedIs(front);
      assert Completes(e.kind) <==> Boundary(e.kind);
      var last := ScanAll(front).lastCompleted;
      assert forall k :: 0 <= k < n ==> events[k] == front[k];
      assert ScanAll(events).lastCompleted == if Boundary(e.kind) && e.sequence > last then e.sequence else last;
      hide ScanAll, Completes, Boundary;
    }
  }

  // ---- what is put before a person ----

  /** No identity has two rows, and each row holds a start of its call. */
  ghost predicate StartsOk(s: Started) {
    && (forall a, b :: 0 <= a < b < |s| ==> s[a].0 != s[b].0)
    && (forall a :: 0 <= a < |s| ==> IdentityOf(s[a].1) == s[a].0)
  }

  lemma {:induction false} InRows(s: Started, i: Identity)
    ensures InDictionary(s, i) <==> exists a :: 0 <= a < |s| && s[a].0 == i
  {
    if s != [] {
      InRows(s[1..], i);
      if a :| 0 <= a < |s[1..]| && s[1..][a].0 == i { assert s[a + 1].0 == i; }
      if a :| 0 <= a < |s| && s[a].0 == i { assert a > 0 ==> s[1..][a - 1].0 == i; }
    }
  }

  lemma {:induction false} NoteOk(s: Started, e: Event)
    requires StartsOk(s)
    ensures StartsOk(Note(s, IdentityOf(e), e))
    ensures forall a :: 0 <= a < |Note(s, IdentityOf(e), e)| ==>
              Note(s, IdentityOf(e), e)[a].0 == IdentityOf(e) || exists b :: 0 <= b < |s| && s[b].0 == Note(s, IdentityOf(e), e)[a].0
  {
    hide IdentityOf;
    var i := IdentityOf(e);
    if s != [] {
      assert StartsOk(s[1..]) by {
        assert forall a :: 0 <= a < |s| - 1 ==> s[1..][a] == s[a + 1];
      }
      if s[0].0 != i {
        NoteOk(s[1..], e);
        var r, rest := Note(s, i, e), Note(s[1..], i, e);
        assert r == [s[0]] + rest;
        forall a | 0 < a < |r| ensures r[a].0 == i || exists b :: 0 < b < |s| && s[b].0 == r[a].0 {
          assert r[a] == rest[a - 1];
          if rest[a - 1].0 != i {
            var b :| 0 <= b < |s[1..]| && s[1..][b].0 == rest[a - 1].0;
            assert s[b + 1].0 == r[a].0;
          }
        }
      }
    }
  }

  lemma {:induction false} ScanStartsOk(events: seq<Event>)
    ensures StartsOk(ScanAll(events).started)
  {
    if events != [] {
      var n := |events| - 1;
      ScanStartsOk(events[..n]);
      hide StartsOk, IdentityOf, Note;
      NoteOk(ScanAll(events[..n]).started, events[n]);
    }
  }

  ghost predicate OpenNamed(events: seq<Event>, name: string) {
    exists k: nat :: Open(events, k) && CallName(events[k]) == name
  }

  /** The open calls, named in order of their names, one name for each call. */
  ghost predicate Names(events: seq<Event>, names: seq<string>, calls: set<Identity>) {
    && Sorted(names, Before)
    && (forall i :: i in calls <==> WasStarted(events, i) && !WasResolved(events, i))
    && |names| == |calls|
    && (forall name :: name in names <==> OpenNamed(events, name))
  }

  function OpenRows(s: Started, resolved: set<Identity>): set<Identity> {
    set a | 0 <= a < |s| && s[a].0 !in resolved :: s[a].0
  }

  ghost predicate RowNamed(s: Started, resolved: set<Identity>, name: string) {
    exists a :: 0 <= a < |s| && s[a].0 !in resolved && CallName(s[a].1) == name
  }

  lemma {:induction false} UnresolvedAre(s: Started, resolved: set<Identity>)
    requires StartsOk(s)
    ensures |Unresolved(s, resolved)| == |OpenRows(s, resolved)|
    ensures forall name :: name in Unresolved(s, resolved)
              <==> RowNamed(s, resolved, name)
  {
    if s != [] {
      var rest := s[1..];
      assert forall a :: 0 <= a < |rest| ==> rest[a] == s[a + 1];
      UnresolvedAre(rest, resolved);
      SameCallIff(s[0].1, s[0].1);
      hide IdentityOf, Display, CallName;
      RowsOfFirst(s, resolved);
      forall name
        ensures RowNamed(s, resolved, name)
                <==> (s[0].0 !in resolved && CallName(s[0].1) == name)
                     || RowNamed(rest, resolved, name)
      {
        if a :| 0 <= a < |s| && s[a].0 !in resolved && CallName(s[a].1) == name { assert a > 0 ==> rest[a - 1] == s[a]; }
        if a :| 0 <= a < |rest| && rest[a].0 !in resolved && CallName(rest[a].1) == name { assert s[a + 1] == rest[a]; }
      }
    }
  }

  lemma RowsOfFirst(s: Started, resolved: set<Identity>)
    requires StartsOk(s) && s != []
    ensures |OpenRows(s, resolved)| == |OpenRows(s[1..], resolved)| + if s[0].0 in resolved then 0 else 1
  {
    var rest := s[1..];
    assert forall a :: 0 <= a < |rest| ==> rest[a] == s[a + 1];
    forall i ensures i in OpenRows(s, resolved) <==> i in OpenRows(rest, resolved) || (s[0].0 !in resolved && i == s[0].0) {
      if a :| 0 <= a < |rest| && rest[a].0 !in resolved && rest[a].0 == i { assert s[a + 1].0 == i; }
      if a :| 0 <= a < |s| && s[a].0 !in resolved && s[a].0 == i { assert a > 0 ==> rest[a - 1].0 == i; }
    }
    assert s[0].0 !in OpenRows(rest, resolved);
    assert OpenRows(s, resolved) == OpenRows(rest, resolved) + if s[0].0 in resolved then {} else {s[0].0};
  }

  /** A run that needs a person names its open calls, sorted, one name for each. */
  lemma OpenCallsNamed(events: seq<Event>, ended: bool) returns (calls: set<Identity>)
    ensures var d := Decide(events, ended);
            if d.status == ManualReview then Names(events, d.ambiguous, calls) else d.ambiguous == []
  {
    hide *;
    var s := ScanAll(events);
    AmbiguousAre(events, ended);
    calls := OpenRows(s.started, s.resolved);
    NamesOfRows(events, s);
  }

  lemma AmbiguousAre(events: seq<Event>, ended: bool)
    ensures var (d, s) := (Decide(events, ended), ScanAll(events));
            d.ambiguous == if d.status == ManualReview then Sort(Unresolved(s.started, s.resolved), Before) else []
  {
    hide ScanAll, Unresolved, Sort;
  }

  lemma NamesOfRows(events: seq<Event>, s: Scan)
    requires s == ScanAll(events)
    ensures Names(events, Sort(Unresolved(s.started, s.resolved), Before), OpenRows(s.started, s.resolved))
  {
    ScanStartsOk(events);
    ScanMeans(events);
    hide ScanAll, Unresolved, WasStarted, WasResolved, WasTerminated, InDictionary, Sort, CallName, IdentityOf, OpenNamed, RowNamed, Sorted, StartsOk;
    UnresolvedAre(s.started, s.resolved);
    NamesSorted(Unresolved(s.started, s.resolved));
    forall i ensures i in OpenRows(s.started, s.resolved) <==> WasStarted(events, i) && !WasResolved(events, i) {
      InRows(s.started, i);
    }
    forall name ensures RowNamed(s.started, s.resolved, name) <==> OpenNamed(events, name) {
      NameIff(events, s.started, s.resolved, name);
    }
  }

  lemma NamesSorted(names: seq<string>)
    ensures Sorted(Sort(names, Before), Before) && |Sort(names, Before)| == |names|
    ensures forall name :: name in Sort(names, Before) <==> name in names
  {
    BeforeOrders(names);
    SortSorted(names, Before);
    SameElements(names, Sort(names, Before));
    SameElements(Sort(names, Before), names);
  }

  lemma NameIff(events: seq<Event>, s: Started, resolved: set<Identity>, name: string)
    requires StartsOk(s)
    requires forall i :: InDictionary(s, i) <==> WasStarted(events, i)
    requires forall i :: i in resolved <==> WasResolved(events, i)
    ensures RowNamed(s, resolved, name)
            <==> OpenNamed(events, name)
  {
    hide WasResolved, CallName, IdentityOf, InDictionary, WasStarted, StartsOk;
    if a :| 0 <= a < |s| && s[a].0 !in resolved && CallName(s[a].1) == name {
      var k := RowOpen(events, s, a);
    }
    if k: nat :| Open(events, k) && CallName(events[k]) == name {
      var a := OpenRow(events, s, k);
    }
  }

  lemma RowOpen(events: seq<Event>, s: Started, a: nat) returns (k: nat)
    requires StartsOk(s) && a < |s| && (forall i :: InDictionary(s, i) <==> WasStarted(events, i))
    requires !WasResolved(events, s[a].0)
    ensures Open(events, k) && CallName(events[k]) == CallName(s[a].1)
  {
    hide Open, WasResolved, CallName, IdentityOf, InDictionary;
    InRows(s, s[a].0);
    k :| 0 <= k < |events| && events[k].kind == ToolStarted && IdentityOf(events[k]) == s[a].0;
    OpenIff(events, k);
    SameCallIff(s[a].1, events[k]);
  }

  lemma OpenRow(events: seq<Event>, s: Started, k: nat) returns (a: nat)
    requires StartsOk(s) && Open(events, k) && (forall i :: InDictionary(s, i) <==> WasStarted(events, i))
    ensures a < |s| && !WasResolved(events, s[a].0) && CallName(s[a].1) == CallName(events[k])
  {
    OpenStarted(events, k);
    hide Open, WasResolved, CallName, IdentityOf, InDictionary;
    OpenIff(events, k);
    assert WasStarted(events, IdentityOf(events[k]));
    InRows(s, IdentityOf(events[k]));
    a :| 0 <= a < |s| && s[a].0 == IdentityOf(events[k]);
    SameCallIff(s[a].1, events[k]);
  }

  // ---- what resuming records ----

  /** The first resume of a run records that it was asked for and what came of it, under the
      run's own keys; an ended run records nothing. */
  lemma ResumeRecords(log: Log, run: string, ended: bool, id1: string, id2: string)
    requires LogOk(log) && id1 != id2 && forall i :: 0 <= i < |log| ==> log[i].id != id1 && log[i].id != id2
    requires forall i :: 0 <= i < |log| && log[i].run == run ==>
               log[i].key != Some("resume-start:" + run) && log[i].key != Some("resume-blocked:" + run)
               && log[i].key != Some("resume-reconstructed:" + run)
    ensures var ((all, d), n) := (ResumeRun(log, run, ended, id1, id2), |EventsOf(log, run)|);
            && d == Decide(EventsOf(log, run), ended)
            && all == match d.status
                      case TerminalNoop => log
                      case ManualReview =>
                        log + [Event(id1, run, n + 1, ResumeStarted, Empty, Some("resume-start:" + run)),
                               Event(id2, run, n + 2, ResumeBlocked, Empty, Some("resume-blocked:" + run))]
                      case Resumable =>
                        log + [Event(id1, run, n + 1, ResumeStarted, Empty, Some("resume-start:" + run)),
                               Event(id2, run, n + 2, ResumeReconstructed, Empty, Some("resume-reconstructed:" + run))]
  {
    var (kind, key) := Recorded(run, Decide(EventsOf(log, run), ended).status);
    KeysDiffer(run);
    TwoEmits(log, run, "resume-start:" + run, kind, key, id1, id2);
    hide Decide, EventsOf, Emit, LogOk;
  }

  lemma KeysDiffer(run: string)
    ensures "resume-start:" + run != "resume-blocked:" + run && "resume-start:" + run != "resume-reconstructed:" + run
  {
    assert ("resume-start:" + run)[7] == 's' && ("resume-blocked:" + run)[7] == 'b' && ("resume-reconstructed:" + run)[7] == 'r';
  }

  lemma TwoEmits(log: Log, run: string, first: string, kind: Kind, second: string, id1: string, id2: string)
    requires LogOk(log) && id1 != id2 && first != second
    requires forall i :: 0 <= i < |log| ==> log[i].id != id1 && log[i].id != id2
    requires forall i :: 0 <= i < |log| && log[i].run == run ==> log[i].key != Some(first) && log[i].key != Some(second)
    ensures var n := |EventsOf(log, run)|;
            Emit(Emit(log, run, ResumeStarted, first, id1), run, kind, second, id2)
            == log + [Event(id1, run, n + 1, ResumeStarted, Empty, Some(first)), Event(id2, run, n + 2, kind, Empty, Some(second))]
  {
    hide LogOk, EventsOf, Append;
    var e := OneEmit(log, run, ResumeStarted, first, id1);
    EventsPush(log, e, run);
    var f := OneEmit(log + [e], run, kind, second, id2);
    assert log + [e] + [f] == log + [e, f];
  }

  lemma OneEmit(log: Log, run: string, kind: Kind, key: string, id: string) returns (e: Event)
    requires LogOk(log) && forall i :: 0 <= i < |log| ==> log[i].id != id && (log[i].run == run ==> log[i].key != Some(key))
    ensures e == Event(id, run, |EventsOf(log, run)| + 1, kind, Empty, Some(key))
    ensures Emit(log, run, kind, key, id) == log + [e] && LogOk(log + [e])
  {
    AppendIs(log, id, run, kind, Empty, Some(key));
    AppendOk(log, id, run, kind, Empty, Some(key));
    hide LogOk, EventsOf, Append;
    e := Event(id, run, |EventsOf(log, run)| + 1, kind, Empty, Some(key));
  }
}
