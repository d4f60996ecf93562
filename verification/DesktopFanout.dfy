// The desktop's fan-out: one destructive queue feeds a bounded history, and every client
// reads it at its own cursor.

module DesktopFanout {
  import opened Common
  import opened Lists

  type Payload = int

  datatype Entry = Entry(serial: int, payload: Payload)

  datatype Cursor = Cursor(client: string, at: int)

  /** history is bounded; cursors are in the order in which their clients polled last. */
  datatype State = State(history: seq<Entry>, serial: int, cursors: seq<Cursor>)

  datatype Reply = Reply(entries: seq<Entry>, mirrorDropped: int)

  const HISTORY_LIMIT: nat := 2048
  const CURSOR_LIMIT: nat := 32

  const Fresh := State([], 0, [])

  // ---- recording ----

  /** Appending to a bounded deque: the oldest entry makes room. */
  function Record(s: State, p: Payload): State {
    var h := s.history + [Entry(s.serial + 1, p)];
    s.(history := if |h| > HISTORY_LIMIT then h[1..] else h, serial := s.serial + 1)
  }

  function RecordAll(s: State, ps: seq<Payload>): State {
    if ps == [] then s else Record(RecordAll(s, ps[..|ps| - 1]), ps[|ps| - 1])
  }

  function Oldest(s: State): int {
    if s.history == [] then s.serial + 1 else s.history[0].serial
  }

  // ---- cursors ----

  function CursorOf(cs: seq<Cursor>, client: string): Option<int> {
    if cs == [] then None else if cs[0].client == client then Some(cs[0].at) else CursorOf(cs[1..], client)
  }

  function Without(cs: seq<Cursor>, client: string): seq<Cursor> {
    if cs == [] then []
    else if cs[0].client == client then Without(cs[1..], client)
    else [cs[0]] + Without(cs[1..], client)
  }

  /** _remember_client_cursor: the client becomes the most recent one; beyond the limit the
      least recent one is forgotten. */
  function Remember(cs: seq<Cursor>, client: string, at: int): seq<Cursor> {
    var all := Without(cs, client) + [Cursor(client, at)];
    if |all| > CURSOR_LIMIT then all[1..] else all
  }

  // ---- polling ----

  /** The entries after the cursor, at most limit of them. */
  function Selected(h: seq<Entry>, cursor: int, limit: nat): seq<Entry> {
    if h == [] || limit == 0 then []
    else if h[0].serial <= cursor then Selected(h[1..], cursor, limit)
    else [h[0]] + Selected(h[1..], cursor, limit - 1)
  }

  /** Where the client reads from, and how much the history has lost before that. */
  function Start(s: State, client: string): (int, int) {
    var at := match CursorOf(s.cursors, client) case Some(c) => c case None => Oldest(s) - 1;
    if Oldest(s) > at + 1 then (Oldest(s) - 1, Oldest(s) - at - 1) else (at, 0)
  }

  /** One poll of a client, after the drained items are recorded. */
  function Poll(s: State, client: string, limit: nat, drained: seq<Payload>): (State, Reply)
  {
    var r := RecordAll(s, drained);
    var (cursor, lost) := Start(r, client);
    var entries := Selected(r.history, cursor, limit);
    var at := if entries == [] then cursor else entries[|entries| - 1].serial;
    (r.(cursors := Remember(r.cursors, client, at)), Reply(entries, lost))
  }

  datatype Answer = Refused | Unavailable | Delivered(reply: Reply)

  /** A call of poll_events, with its checks. */
  function Asked(s: State, raw: string, limit: int, drained: Option<seq<Payload>>): (State, Answer) {
    if !(1 <= limit <= 500) || Blank(raw) || |Strip(raw)| > 80 then (s, Refused)
    else if drained.None? then (s, Unavailable)
    else
      var (t, reply) := Poll(s, Strip(raw), limit, drained.value);
      (t, Delivered(reply))
  }

  // ---- what is kept ----

  /** Serials are contiguous up to the last one. */
  ghost predicate Contiguous(h: seq<Entry>, serial: int) {
    && |h| <= serial && |h| <= HISTORY_LIMIT && (serial > 0 ==> h != [])
    && forall i :: 0 <= i < |h| ==> h[i].serial == serial - |h| + 1 + i
  }

  ghost predicate UniqueClients(cs: seq<Cursor>) {
    forall i, j :: 0 <= i < j < |cs| ==> cs[i].client != cs[j].client
  }

  ghost predicate CursorsOk(cs: seq<Cursor>, serial: int) {
    && |cs| <= CURSOR_LIMIT
    && (forall i :: 0 <= i < |cs| ==> 0 <= cs[i].at <= serial)
    && UniqueClients(cs)
  }

  ghost predicate Sound(s: State) {
    Contiguous(s.history, s.serial) && CursorsOk(s.cursors, s.serial)
  }

  lemma RecordOk(s: State, p: Payload)
    requires Sound(s)
    ensures Sound(Record(s, p)) && Record(s, p).serial == s.serial + 1 && Record(s, p).cursors == s.cursors
  {
  }

  lemma {:induction false} RecordAllOk(s: State, ps: seq<Payload>)
    requires Sound(s)
    ensures var r := RecordAll(s, ps); Sound(r) && r.serial == s.serial + |ps| && r.cursors == s.cursors && 1 <= Oldest(r)
  {
    if ps != [] {
      RecordAllOk(s, ps[..|ps| - 1]);
      RecordOk(RecordAll(s, ps[..|ps| - 1]), ps[|ps| - 1]);
    }
  }

  lemma {:induction false} CursorIs(cs: seq<Cursor>, client: string)
    ensures CursorOf(cs, client).Some? ==> exists i :: 0 <= i < |cs| && cs[i] == Cursor(client, CursorOf(cs, client).value)
    ensures CursorOf(cs, client).None? ==> forall i :: 0 <= i < |cs| ==> cs[i].client != client
  {
    if cs != [] && cs[0].client != client {
      CursorIs(cs[1..], client);
      if CursorOf(cs, client).Some? {
        var i :| 0 <= i < |cs[1..]| && cs[1..][i] == Cursor(client, CursorOf(cs, client).value);
        assert cs[i + 1] == Cursor(client, CursorOf(cs, client).value);
      } else {
        assert forall i :: 1 <= i < |cs| ==> cs[i] == cs[1..][i - 1];
      }
    }
  }

  function Least(a: nat, b: nat): nat {
    if a < b then a else b
  }

  lemma {:induction false} TakesFirst(h: seq<Entry>, cursor: int, limit: nat)
    requires forall i :: 0 <= i < |h| ==> h[i].serial > cursor
    ensures Selected(h, cursor, limit) == h[..Least(limit, |h|)]
  {
    if h != [] && limit != 0 {
      TakesFirst(h[1..], cursor, limit - 1);
      hide Selected;
      assert [h[0]] + h[1..][..Least(limit - 1, |h| - 1)] == h[..Least(limit, |h|)];
    }
  }

  /** What is selected from a contiguous history is the next entries after the cursor. */
  lemma {:induction false} SelectedIs(h: seq<Entry>, first: int, cursor: int, limit: nat)
    requires forall i :: 0 <= i < |h| ==> h[i].serial == first + i
    ensures var from := if cursor < first then 0 else Least(cursor - first + 1, |h|);
            Selected(h, cursor, limit) == h[from..Least(from + limit, |h|)]
  {
    if cursor < first {
      TakesFirst(h, cursor, limit);
    } else if h != [] && limit != 0 {
      SelectedIs(h[1..], first + 1, cursor, limit);
      assert Selected(h, cursor, limit) == Selected(h[1..], cursor, limit);
      hide Selected;
      var from := Least(cursor - first + 1, |h|);
      SliceOfRest(h, from, Least(from + limit, |h|));
    }
  }

  lemma StartOk(s: State, client: string)
    requires Sound(s)
    ensures var (cursor, lost) := Start(s, client);
            && 0 <= lost && Oldest(s) - 1 <= cursor <= s.serial
            && (CursorOf(s.cursors, client).Some? ==> cursor == CursorOf(s.cursors, client).value + lost)
            && (CursorOf(s.cursors, client).None? ==> cursor == Oldest(s) - 1 && lost == 0)
  {
    CursorIs(s.cursors, client);
  }

  /** The entries selected from a history: the next ones after the cursor, up to the limit. */
  lemma SelectNext(r: State, cursor: int, limit: nat)
    requires Contiguous(r.history, r.serial) && Oldest(r) - 1 <= cursor <= r.serial && 1 <= limit
    ensures var entries := Selected(r.history, cursor, limit);
            && (forall i :: 0 <= i < |entries| ==> entries[i].serial == cursor + 1 + i)
            && (forall i :: 0 <= i < |entries| ==> entries[i] in r.history)
            && |entries| == (if r.serial - cursor < limit then r.serial - cursor else limit)
  {
    SelectedIs(r.history, r.serial - |r.history| + 1, cursor, limit);
  }

  lemma SoundHistory(s: State)
    requires Sound(s)
    ensures Contiguous(s.history, s.serial)
  {
  }

  /** One poll: the client gets the entries right after its cursor, without a gap, and its
      cursor moves by what it got plus what the history had already lost. */
  lemma PollDelivers(s: State, client: string, limit: nat, drained: seq<Payload>)
    requires Sound(s) && 1 <= limit
    ensures var (t, reply) := Poll(s, client, limit, drained);
            var r := RecordAll(s, drained);
            var (cursor, lost) := Start(r, client);
            && (forall i :: 0 <= i < |reply.entries| ==> reply.entries[i].serial == cursor + 1 + i)
            && (forall i :: 0 <= i < |reply.entries| ==> reply.entries[i] in r.history)
            && |reply.entries| == (if r.serial - cursor < limit then r.serial - cursor else limit)
            && reply.mirrorDropped == lost
            && t == r.(cursors := Remember(r.cursors, client, cursor + |reply.entries|))
            && CursorOf(t.cursors, client) == Some(cursor + |reply.entries|)
  {
    hide Start, Remember, Selected, Sound, CursorOf;
    RecordAllOk(s, drained);
    var r := RecordAll(s, drained);
    StartOk(r, client);
    SoundHistory(r);
    hide RecordAll;
    var cursor := Start(r, client).0;
    SelectNext(r, cursor, limit);
    RememberIs(r.cursors, client, cursor + |Selected(r.history, cursor, limit)|);
  }

  lemma {:induction false} WithoutIs(cs: seq<Cursor>, client: string, other: string)
    ensures CursorOf(Without(cs, client), other) == if other == client then None else CursorOf(cs, other)
    ensures |Without(cs, client)| <= |cs|
    ensures forall x :: x in Without(cs, client) ==> x in cs && x.client != client
  {
    if cs != [] { WithoutIs(cs[1..], client, other); }
  }

  lemma {:induction false} CursorAppend(a: seq<Cursor>, b: seq<Cursor>, client: string)
    ensures CursorOf(a + b, client) == if CursorOf(a, client).Some? then CursorOf(a, client) else CursorOf(b, client)
  {
    if a == [] {
      assert a + b == b;
    } else {
      assert (a + b)[1..] == a[1..] + b;
      CursorAppend(a[1..], b, client);
    }
  }

  lemma RememberIs(cs: seq<Cursor>, client: string, at: int)
    ensures CursorOf(Remember(cs, client, at), client) == Some(at)
  {
    WithoutIs(cs, client, client);
    var w := Without(cs, client);
    CursorAppend(w, [Cursor(client, at)], client);
    if |w| + 1 > CURSOR_LIMIT {
      var all := w + [Cursor(client, at)];
      assert all[1..] == w[1..] + [Cursor(client, at)];
      CursorAppend(w[1..], [Cursor(client, at)], client);
      assert CursorOf(w, client).None?;
    }
  }

  lemma {:induction false} WithoutUnique(cs: seq<Cursor>, client: string)
    requires UniqueClients(cs)
    ensures UniqueClients(Without(cs, client))
    ensures |cs| - 1 <= |Without(cs, client)|
  {
    if cs != [] {
      WithoutUnique(cs[1..], client);
      WithoutIs(cs[1..], client, client);
      var w := Without(cs[1..], client);
      if cs[0].client == client {
        NoneLeft(cs[1..], client);
      } else {
        forall j | 0 <= j < |w| ensures w[j].client != cs[0].client {
          assert w[j] in w && w[j] in cs[1..];
        }
      }
    }
  }

  lemma {:induction false} NoneLeft(cs: seq<Cursor>, client: string)
    requires forall i :: 0 <= i < |cs| ==> cs[i].client != client
    ensures Without(cs, client) == cs
  {
    if cs != [] { NoneLeft(cs[1..], client); }
  }

  lemma WithoutOk(cs: seq<Cursor>, client: string, serial: int)
    requires CursorsOk(cs, serial)
    ensures CursorsOk(Without(cs, client), serial)
    ensures forall i :: 0 <= i < |Without(cs, client)| ==> Without(cs, client)[i].client != client
  {
    WithoutUnique(cs, client);
    WithoutIs(cs, client, client);
    var w := Without(cs, client);
    hide Without, UniqueClients;
    forall i | 0 <= i < |w| ensures 0 <= w[i].at <= serial && w[i].client != client { assert w[i] in w && w[i] in cs; }
  }

  lemma RememberOk(cs: seq<Cursor>, client: string, at: int, serial: int)
    requires CursorsOk(cs, serial) && 0 <= at <= serial
    ensures CursorsOk(Remember(cs, client, at), serial)
  {
    WithoutOk(cs, client, serial);
    hide Without;
  }

  /** Every poll keeps the serials contiguous and the cursors within bounds. */
  lemma PollOk(s: State, client: string, limit: nat, drained: seq<Payload>)
    requires Sound(s) && 1 <= limit
    ensures Sound(Poll(s, client, limit, drained).0)
  {
    RecordAllOk(s, drained);
    PollDelivers(s, client, limit, drained);
    var r := RecordAll(s, drained);
    StartOk(r, client);
    RememberOk(r.cursors, client, Start(r, client).0 + |Poll(s, client, limit, drained).1.entries|, r.serial);
  }

  // ---- one client among many ----

  /** A client polls, or a new run starts the fan-out anew. */
  datatype Op = PollOp(client: string, limit: nat, drained: seq<Payload>) | ResetOp

  ghost predicate Behaviour(trace: seq<State>, ops: seq<Op>) {
    && |trace| == |ops| + 1 && trace[0] == Fresh
    && forall i :: 0 <= i < |ops| ==> StepAt(trace, ops, i)
  }

  ghost predicate StepAt(trace: seq<State>, ops: seq<Op>, i: nat)
    requires |trace| == |ops| + 1 && i < |ops|
  {
    match ops[i]
    case PollOp(client, limit, drained) => 1 <= limit <= 500 && trace[i + 1] == Poll(trace[i], client, limit, drained).0
    case ResetOp => trace[i + 1] == Fresh
  }

  function ReplyAt(trace: seq<State>, ops: seq<Op>, i: nat): Reply
    requires |trace| == |ops| + 1 && i < |ops| && ops[i].PollOp?
  {
    Poll(trace[i], ops[i].client, ops[i].limit, ops[i].drained).1
  }

  predicate PolledBy(op: Op, client: string) {
    op.PollOp? && op.client == client
  }

  /** Everything a client got from the polls m .. n - 1, and how much it missed. */
  function Received(trace: seq<State>, ops: seq<Op>, client: string, m: nat, n: nat): (seq<Entry>, int)
    requires |trace| == |ops| + 1 && m <= n <= |ops|
  {
    if m == n then ([], 0)
    else
      var (got, lost) := Received(trace, ops, client, m, n - 1);
      if !PolledBy(ops[n - 1], client) then (got, lost)
      else (got + ReplyAt(trace, ops, n - 1).entries, lost + ReplyAt(trace, ops, n - 1).mirrorDropped)
  }

  lemma {:induction false} ReachableOk(trace: seq<State>, ops: seq<Op>, n: nat)
    requires Behaviour(trace, ops) && n < |trace|
    ensures Sound(trace[n])
  {
    if n > 0 {
      ReachableOk(trace, ops, n - 1);
      assert StepAt(trace, ops, n - 1);
      hide Poll;
      if ops[n - 1].PollOp? {
        hide Sound;
        PollOk(trace[n - 1], ops[n - 1].client, ops[n - 1].limit, ops[n - 1].drained);
      }
    }
  }

  lemma OthersCursor(cs: seq<Cursor>, client: string, at: int, other: string)
    requires other != client && UniqueClients(cs)
    ensures var c := CursorOf(Remember(cs, client, at), other); c.Some? ==> c == CursorOf(cs, other)
  {
    WithoutIs(cs, client, other);
    WithoutUnique(cs, client);
    var w := Without(cs, client);
    CursorAppend(w, [Cursor(client, at)], other);
    if |w| + 1 > CURSOR_LIMIT {
      var all := w + [Cursor(client, at)];
      assert all[1..] == w[1..] + [Cursor(client, at)];
      CursorAppend(w[1..], [Cursor(client, at)], other);
      if w[0].client == other { CursorIs(w[1..], other); }
    }
  }

  /** A poll by another client leaves a cursor where it is, or forgets it. */
  lemma OtherPoll(s: State, op: Op, client: string)
    requires op.PollOp? && Sound(s) && 1 <= op.limit && op.client != client
    ensures var c := CursorOf(Poll(s, op.client, op.limit, op.drained).0.cursors, client);
            c.Some? ==> c == CursorOf(s.cursors, client)
  {
    RecordAllOk(s, op.drained);
    PollDelivers(s, op.client, op.limit, op.drained);
    var r := RecordAll(s, op.drained);
    hide RecordAll, Start, Remember, Poll;
    OthersCursor(r.cursors, op.client, Start(r, op.client).0 + |Poll(s, op.client, op.limit, op.drained).1.entries|, client);
  }

  lemma OwnPoll(s: State, op: Op)
    requires op.PollOp? && Sound(s) && 1 <= op.limit && CursorOf(s.cursors, op.client).Some?
    ensures var (t, reply) := Poll(s, op.client, op.limit, op.drained);
            var before := CursorOf(s.cursors, op.client).value;
            && CursorOf(t.cursors, op.client) == Some(before + reply.mirrorDropped + |reply.entries|)
            && 0 <= reply.mirrorDropped
            && forall i :: 0 <= i < |reply.entries| ==> reply.entries[i].serial == before + reply.mirrorDropped + 1 + i
  {
    RecordAllOk(s, op.drained);
    PollDelivers(s, op.client, op.limit, op.drained);
    StartOk(RecordAll(s, op.drained), op.client);
  }

  /** As long as its cursor is kept, a client receives strictly increasing serials, each once,
      and its cursor advances by exactly what it received plus what it was told it missed. */
  lemma {:induction false} ClientStream(trace: seq<State>, ops: seq<Op>, client: string, m: nat, n: nat)
    requires Behaviour(trace, ops) && m <= n < |trace|
    requires forall k :: m <= k <= n ==> CursorOf(trace[k].cursors, client).Some?
    ensures var (got, lost) := Received(trace, ops, client, m, n);
            var (from, to) := (CursorOf(trace[m].cursors, client).value, CursorOf(trace[n].cursors, client).value);
            && to == from + |got| + lost && 0 <= lost
            && (forall i :: 0 <= i < |got| ==> from < got[i].serial <= to)
            && (forall i, j :: 0 <= i < j < |got| ==> got[i].serial < got[j].serial)
  {
    if m < n {
      ClientStream(trace, ops, client, m, n - 1);
      ReachableOk(trace, ops, n - 1);
      assert StepAt(trace, ops, n - 1);
      assert ops[n - 1].PollOp? by { assert CursorOf(trace[n].cursors, client).Some?; }
      hide Poll, Sound, CursorOf;
      if ops[n - 1].client == client { OwnPoll(trace[n - 1], ops[n - 1]); } else { OtherPoll(trace[n - 1], ops[n - 1], client); }
    }
  }

  // ---- what is delivered, across resets ----

  /** The payloads drained since the last reset. */
  function Published(ops: seq<Op>): seq<Payload> {
    if ops == [] then []
    else
      match ops[|ops| - 1]
      case PollOp(_, _, drained) => Published(ops[..|ops| - 1]) + drained
      case ResetOp => []
  }

  /** Entry k is the k-th payload. */
  ghost predicate Mirrors(s: State, ps: seq<Payload>) {
    s.serial == |ps| && Shows(s.history, ps)
  }

  ghost predicate Shows(h: seq<Entry>, ps: seq<Payload>) {
    forall i :: 0 <= i < |h| ==> 1 <= h[i].serial <= |ps| && h[i].payload == ps[h[i].serial - 1]
  }

  lemma ShowsNext(h: seq<Entry>, ps: seq<Payload>, p: Payload)
    requires Shows(h, ps)
    ensures Shows(h + [Entry(|ps| + 1, p)], ps + [p])
  {
  }

  lemma ShowsRest(h: seq<Entry>, ps: seq<Payload>)
    requires Shows(h, ps) && h != []
    ensures Shows(h[1..], ps)
  {
  }

  lemma RecordMirror(s: State, before: seq<Payload>, p: Payload)
    requires Mirrors(s, before)
    ensures Mirrors(Record(s, p), before + [p])
  {
    ShowsNext(s.history, before, p);
    ShowsRest(s.history + [Entry(|before| + 1, p)], before + [p]);
  }

  lemma {:induction false} RecordMirrors(s: State, before: seq<Payload>, ps: seq<Payload>)
    requires Mirrors(s, before)
    ensures Mirrors(RecordAll(s, ps), before + ps)
  {
    if ps == [] {
      assert before + ps == before;
    } else {
      var n := |ps| - 1;
      RecordMirrors(s, before, ps[..n]);
      assert before + ps == before + ps[..n] + [ps[n]];
      hide Mirrors, Record;
      RecordMirror(RecordAll(s, ps[..n]), before + ps[..n], ps[n]);
    }
  }

  /** The history holds nothing from before a reset, and every entry under its own number. */
  lemma {:induction false} ReachableMirrors(trace: seq<State>, ops: seq<Op>, n: nat)
    requires Behaviour(trace, ops) && n < |trace|
    ensures Mirrors(trace[n], Published(ops[..n]))
  {
    if n > 0 {
      ReachableMirrors(trace, ops, n - 1);
      assert StepAt(trace, ops, n - 1);
      assert ops[..n][..n - 1] == ops[..n - 1];
      if ops[n - 1].PollOp? { RecordMirrors(trace[n - 1], Published(ops[..n - 1]), ops[n - 1].drained); }
    }
  }

  /** Whatever was polled and reset before: the entries a poll delivers are payloads published
      since the last reset, in order and without a gap, under their numbers, and a client without
      a cursor starts at the oldest one kept. */
  lemma DeliversPublished(trace: seq<State>, ops: seq<Op>, n: nat)
    requires Behaviour(trace, ops) && n < |ops| && ops[n].PollOp?
    ensures var entries, ps := ReplyAt(trace, ops, n).entries, Published(ops[..n + 1]);
            && (forall i :: 0 <= i < |entries| ==>
                  1 <= entries[i].serial <= |ps| && entries[i] == Entry(entries[0].serial + i, ps[entries[i].serial - 1]))
            && (CursorOf(trace[n].cursors, ops[n].client).None? && ps != [] ==>
                  entries != [] && entries[0].serial == (if |ps| > HISTORY_LIMIT then |ps| - HISTORY_LIMIT + 1 else 1))
  {
    ReachableMirrors(trace, ops, n);
    ReachableOk(trace, ops, n);
    FullHistory(trace, ops, n);
    assert StepAt(trace, ops, n);
    assert ops[..n + 1][..n] == ops[..n] && ops[..n + 1][n] == ops[n];
    var before := Published(ops[..n]);
    assert Published(ops[..n + 1]) == before + ops[n].drained;
    hide *;
    PollPublishes(trace[n], ops[n], before);
  }

  lemma PollPublishes(s: State, op: Op, before: seq<Payload>)
    requires op.PollOp? && 1 <= op.limit && Sound(s) && Full(s) && 0 <= s.serial && Mirrors(s, before)
    ensures var entries, ps := Poll(s, op.client, op.limit, op.drained).1.entries, before + op.drained;
            && (forall i :: 0 <= i < |entries| ==>
                  1 <= entries[i].serial <= |ps| && entries[i] == Entry(entries[0].serial + i, ps[entries[i].serial - 1]))
            && (CursorOf(s.cursors, op.client).None? && ps != [] ==>
                  entries != [] && entries[0].serial == (if |ps| > HISTORY_LIMIT then |ps| - HISTORY_LIMIT + 1 else 1))
  {
    hide Poll, RecordAll, Start, CursorOf, Sound, Remember, Full, Mirrors, Oldest;
    PollDelivers(s, op.client, op.limit, op.drained);
    RecordMirrors(s, before, op.drained);
    RecordFull(s, op.drained);
    RecordAllOk(s, op.drained);
    var r := RecordAll(s, op.drained);
    StartOk(r, op.client);
    EntriesAre(r, before + op.drained, Poll(s, op.client, op.limit, op.drained).1.entries);
    OldestKept(r, before + op.drained);
  }

  lemma OldestKept(r: State, ps: seq<Payload>)
    requires Sound(r) && Full(r) && Mirrors(r, ps)
    ensures r.serial == |ps| && Oldest(r) == if |ps| > HISTORY_LIMIT then |ps| - HISTORY_LIMIT + 1 else 1
  {
  }

  lemma EntriesAre(r: State, ps: seq<Payload>, entries: seq<Entry>)
    requires Mirrors(r, ps) && forall i :: 0 <= i < |entries| ==> entries[i] in r.history
    ensures forall i :: 0 <= i < |entries| ==> 1 <= entries[i].serial <= |ps| && entries[i].payload == ps[entries[i].serial - 1]
  {
    forall i | 0 <= i < |entries| ensures 1 <= entries[i].serial <= |ps| && entries[i].payload == ps[entries[i].serial - 1] {
      var k :| 0 <= k < |r.history| && r.history[k] == entries[i];
    }
  }

  /** The history is as long as it can be. */
  ghost predicate Full(s: State) {
    |s.history| == if s.serial < HISTORY_LIMIT then s.serial else HISTORY_LIMIT
  }

  lemma {:induction false} RecordFull(s: State, ps: seq<Payload>)
    requires Full(s) && 0 <= s.serial
    ensures Full(RecordAll(s, ps)) && 0 <= RecordAll(s, ps).serial
  {
    if ps != [] { RecordFull(s, ps[..|ps| - 1]); }
  }

  lemma {:induction false} FullHistory(trace: seq<State>, ops: seq<Op>, n: nat)
    requires Behaviour(trace, ops) && n < |trace|
    ensures Full(trace[n]) && 0 <= trace[n].serial
  {
    if n > 0 {
      FullHistory(trace, ops, n - 1);
      assert StepAt(trace, ops, n - 1);
      if ops[n - 1].PollOp? { RecordFull(trace[n - 1], ops[n - 1].drained); }
    }
  }

  // ---- when a cursor is forgotten ----

  /** The clients that polled after the given one. */
  function After(cs: seq<Cursor>, client: string): seq<Cursor> {
    if cs == [] then [] else if cs[0].client == client then cs[1..] else After(cs[1..], client)
  }

  function Clients(cs: seq<Cursor>): set<string> {
    set c | c in cs :: c.client
  }

  lemma {:induction false} AfterWithout(cs: seq<Cursor>, d: string, client: string)
    requires d != client && CursorOf(cs, client).Some?
    ensures After(Without(cs, d), client) == Without(After(cs, client), d) && CursorOf(Without(cs, d), client).Some?
  {
    if cs[0].client != client { AfterWithout(cs[1..], d, client); }
  }

  lemma {:induction false} AfterPush(cs: seq<Cursor>, c: Cursor, client: string)
    requires CursorOf(cs, client).Some?
    ensures After(cs + [c], client) == After(cs, client) + [c] && CursorOf(cs + [c], client).Some?
    ensures |After(cs, client)| < |cs|
  {
    assert (cs + [c])[1..] == cs[1..] + [c];
    if cs[0].client != client { AfterPush(cs[1..], c, client); }
  }

  lemma ClientsWithout(cs: seq<Cursor>, d: string, c: Cursor)
    requires c.client == d
    ensures Clients(Without(cs, d) + [c]) == Clients(cs) + {d}
  {
    WithoutIs(cs, d, d);
    var all := Without(cs, d) + [c];
    forall x | x in Clients(cs) ensures x in Clients(all) {
      var e :| e in cs && e.client == x;
      if x != d {
        KeptWithout(cs, d, e);
        assert e in all;
      } else {
        assert c in all;
      }
    }
    assert c in all;
  }

  lemma {:induction false} KeptWithout(cs: seq<Cursor>, d: string, e: Cursor)
    requires e in cs && e.client != d
    ensures e in Without(cs, d)
  {
    if cs[0] != e { KeptWithout(cs[1..], d, e); }
  }

  lemma {:induction false} ClientCount(cs: seq<Cursor>)
    requires UniqueClients(cs)
    ensures |Clients(cs)| == |cs|
  {
    if cs != [] {
      var rest := cs[1..];
      ClientCount(rest);
      assert cs[0].client !in Clients(rest);
      assert Clients(cs) == Clients(rest) + {cs[0].client};
    }
  }

  /** The cursors, as seen by a client that polled before the given others. */
  ghost predicate Seen(cs: seq<Cursor>, client: string, others: set<string>) {
    if |others| < CURSOR_LIMIT then CursorOf(cs, client).Some? && Clients(After(cs, client)) == others
    else CursorOf(cs, client).None?
  }

  lemma TailUnique(cs: seq<Cursor>)
    requires cs != [] && UniqueClients(cs)
    ensures UniqueClients(cs[1..])
  {
  }

  lemma {:induction false} AfterUnique(cs: seq<Cursor>, client: string)
    requires UniqueClients(cs)
    ensures UniqueClients(After(cs, client))
    ensures cs != [] && cs[0].client == client ==> CursorOf(cs[1..], client).None?
  {
    if cs != [] {
      TailUnique(cs);
      AfterUnique(cs[1..], client);
      if cs[0].client == client { CursorIs(cs[1..], client); }
    }
  }

  /** A poll by another client: the cursor is forgotten when the last of 32 others comes. */
  lemma SeenStep(cs: seq<Cursor>, client: string, others: set<string>, d: string, at: int, serial: int)
    requires CursorsOk(cs, serial) && Seen(cs, client, others) && |others| < CURSOR_LIMIT && d != client
    ensures Seen(Remember(cs, d, at), client, others + {d})
  {
    var c := Cursor(d, at);
    AfterUnique(cs, client);
    AfterWithout(cs, d, client);
    ClientsWithout(After(cs, client), d, c);
    var w := Without(cs, d);
    WithoutIs(cs, d, d);
    WithoutUnique(cs, d);
    WithoutUnique(After(cs, client), d);
    var all := w + [c];
    AfterPush(w, c, client);
    forall i | 0 <= i < |w| ensures w[i].client != d { assert w[i] in w; }
    AfterUnique(all, client);
    ClientCount(After(all, client));
    AfterLength(all, client);
    DropOldest(all, client);
  }

  lemma {:induction false} AfterLength(cs: seq<Cursor>, client: string)
    requires CursorOf(cs, client).Some?
    ensures |After(cs, client)| < |cs| && (|After(cs, client)| == |cs| - 1 <==> cs[0].client == client)
  {
    if cs[0].client != client { AfterLength(cs[1..], client); }
  }

  lemma DropOldest(cs: seq<Cursor>, client: string)
    requires CursorOf(cs, client).Some? && UniqueClients(cs)
    ensures if cs[0].client == client then CursorOf(cs[1..], client).None?
            else CursorOf(cs[1..], client).Some? && After(cs[1..], client) == After(cs, client)
  {
    AfterUnique(cs, client);
  }

  /** The clients that polled. */
  function Pollers(ops: seq<Op>, m: nat, n: nat): set<string>
    requires m <= n <= |ops|
  {
    set i | m <= i < n && ops[i].PollOp? :: ops[i].client
  }

  predicate NoReset(ops: seq<Op>, m: nat, n: nat)
    requires m <= n <= |ops|
  {
    forall i :: m <= i < n ==> ops[i].PollOp?
  }

  /** Since its last poll, a client's cursor is still known iff there was no reset and fewer
      than 32 other clients have polled; a forgotten client starts again at the oldest entry. */
  lemma {:induction false} ForgottenIff(trace: seq<State>, ops: seq<Op>, m: nat, n: nat)
    requires Behaviour(trace, ops) && m < n < |trace| && ops[m].PollOp?
    requires forall i :: m < i < n ==> !PolledBy(ops[i], ops[m].client)
    ensures CursorOf(trace[n].cursors, ops[m].client).Some?
            <==> NoReset(ops, m + 1, n) && |Pollers(ops, m + 1, n)| < CURSOR_LIMIT
  {
    if NoReset(ops, m + 1, n) {
      SeenAfter(trace, ops, m, n);
    } else {
      var i :| m < i < n && ops[i].ResetOp?;
      UnknownAfter(trace, ops, ops[m].client, i, n);
    }
  }

  /** After a reset a client is unknown until it polls. */
  lemma {:induction false} UnknownAfter(trace: seq<State>, ops: seq<Op>, client: string, m: nat, n: nat)
    requires Behaviour(trace, ops) && m < n < |trace| && ops[m].ResetOp?
    requires forall i :: m < i < n ==> !PolledBy(ops[i], client)
    ensures CursorOf(trace[n].cursors, client).None?
  {
    assert StepAt(trace, ops, n - 1);
    if ops[n - 1].PollOp? {
      UnknownAfter(trace, ops, client, m, n - 1);
      ReachableOk(trace, ops, n - 1);
      hide Poll, Sound;
      OtherPoll(trace[n - 1], ops[n - 1], client);
    }
  }

  /** The cursors after a poll are those before it, with the poller's remembered. */
  lemma PollRemembers(s: State, op: Op) returns (at: int)
    requires op.PollOp? && Sound(s) && 1 <= op.limit
    ensures Poll(s, op.client, op.limit, op.drained).0.cursors == Remember(s.cursors, op.client, at)
    ensures CursorsOk(s.cursors, s.serial)
  {
    RecordAllOk(s, op.drained);
    PollDelivers(s, op.client, op.limit, op.drained);
    at := Start(RecordAll(s, op.drained), op.client).0 + |Poll(s, op.client, op.limit, op.drained).1.entries|;
  }

  lemma SeenPoll(s: State, op: Op, client: string, others: set<string>)
    requires op.PollOp? && Sound(s) && 1 <= op.limit && op.client != client && Seen(s.cursors, client, others)
    ensures Seen(Poll(s, op.client, op.limit, op.drained).0.cursors, client, others + {op.client})
  {
    var at := PollRemembers(s, op);
    OtherPoll(s, op, client);
    hide Poll, Remember, Seen, CursorsOk, Sound;
    if |others| < CURSOR_LIMIT {
      SeenStep(s.cursors, client, others, op.client, at, s.serial);
    } else {
      StillUnseen(s.cursors, Poll(s, op.client, op.limit, op.drained).0.cursors, client, others, op.client);
    }
  }

  lemma Turn(trace: seq<State>, ops: seq<Op>, i: nat)
    requires Behaviour(trace, ops) && i < |ops| && ops[i].PollOp?
    ensures 1 <= ops[i].limit <= 500
    ensures trace[i + 1] == Poll(trace[i], ops[i].client, ops[i].limit, ops[i].drained).0
  {
    assert StepAt(trace, ops, i);
  }

  /** Only other clients polled, and nothing was reset. */
  predicate OthersOnly(ops: seq<Op>, client: string, m: nat, n: nat)
    requires m <= n <= |ops|
  {
    forall i :: m <= i < n ==> ops[i].PollOp? && ops[i].client != client
  }

  lemma OthersUntil(ops: seq<Op>, client: string, m: nat, n: nat)
    requires m < n <= |ops| && OthersOnly(ops, client, m, n)
    ensures OthersOnly(ops, client, m, n - 1) && ops[n - 1].PollOp? && ops[n - 1].client != client
  {
  }

  lemma {:induction false} SeenAfter(trace: seq<State>, ops: seq<Op>, m: nat, n: nat)
    requires Behaviour(trace, ops) && m < n < |trace| && n <= |ops|
    requires ops[m].PollOp? && OthersOnly(ops, ops[m].client, m + 1, n)
    ensures Seen(trace[n].cursors, ops[m].client, Pollers(ops, m + 1, n))
  {
    hide *;
    if n == m + 1 {
      ReachableOk(trace, ops, m);
      Turn(trace, ops, m);
      var at := PollRemembers(trace[m], ops[m]);
      SeenOwn(trace[m].cursors, ops[m].client, at);
      NoPollers(ops, n);
    } else {
      OthersUntil(ops, ops[m].client, m + 1, n);
      ReachableOk(trace, ops, n - 1);
      Turn(trace, ops, n - 1);
      SeenAfter(trace, ops, m, n - 1);
      PollersPush(ops, m + 1, n - 1);
      SeenPoll(trace[n - 1], ops[n - 1], ops[m].client, Pollers(ops, m + 1, n - 1));
    }
  }

  lemma NoPollers(ops: seq<Op>, n: nat)
    requires n <= |ops|
    ensures Pollers(ops, n, n) == {}
  {
  }

  lemma PollersPush(ops: seq<Op>, m: nat, n: nat)
    requires m <= n < |ops| && ops[n].PollOp?
    ensures Pollers(ops, m, n + 1) == Pollers(ops, m, n) + {ops[n].client}
  {
  }

  lemma StillUnseen(cs: seq<Cursor>, next: seq<Cursor>, client: string, others: set<string>, d: string)
    requires |others| >= CURSOR_LIMIT && Seen(cs, client, others)
    requires CursorOf(next, client).Some? ==> CursorOf(next, client) == CursorOf(cs, client)
    ensures Seen(next, client, others + {d})
  {
    Larger(others, d);
  }

  lemma Larger(s: set<string>, d: string)
    ensures |s| <= |s + {d}|
  {
    if d in s { assert s + {d} == s; }
  }

  lemma {:induction false} AfterAbsent(cs: seq<Cursor>, c: Cursor)
    requires CursorOf(cs, c.client).None?
    ensures After(cs + [c], c.client) == []
  {
    if cs != [] {
      assert (cs + [c])[1..] == cs[1..] + [c];
      AfterAbsent(cs[1..], c);
    }
  }

  lemma SeenOwn(cs: seq<Cursor>, client: string, at: int)
    ensures Seen(Remember(cs, client, at), client, {})
  {
    RememberIs(cs, client, at);
    WithoutIs(cs, client, client);
    var w, c := Without(cs, client), Cursor(client, at);
    AfterAbsent(w, c);
    if |w| + 1 > CURSOR_LIMIT {
      assert (w + [c])[1..] == w[1..] + [c];
      AfterAbsent(w[1..], c);
    }
  }

  // ---- the fan-out as it is written ----

  class DesktopApi {
    var history: seq<Entry>
    var serial: int
    var cursors: seq<Cursor>

    function View(): State
      reads this
    {
      State(history, serial, cursors)
    }

    constructor ()
      ensures View() == Fresh
    {
      history, serial, cursors := [], 0, [];
    }

    method ResetEventFanout()
      modifies this
      ensures View() == Fresh
    {
      history, serial, cursors := [], 0, [];
    }

    method RememberClientCursor(client: string, at: int)
      requires |cursors| <= CURSOR_LIMIT
      modifies this`cursors
      ensures cursors == Remember(old(cursors), client, at)
    {
      WithoutIs(cursors, client, client);
      cursors := Without(cursors, client);
      cursors := cursors + [Cursor(client, at)];
      while |cursors| > CURSOR_LIMIT
        invariant |cursors| <= CURSOR_LIMIT + 1
        invariant cursors == (var all := Without(old(cursors), client) + [Cursor(client, at)]; all)
                  || (|cursors| == CURSOR_LIMIT && cursors == Remember(old(cursors), client, at))
        decreases |cursors|
      {
        cursors := cursors[1..];
      }
    }

    method RecordDrained(drained: seq<Payload>)
      modifies this`history, this`serial
      ensures View() == RecordAll(old(View()), drained)
    {
      for i := 0 to |drained|
        invariant View() == RecordAll(old(View()), drained[..i])
      {
        assert drained[..i + 1][..i] == drained[..i];
        serial := serial + 1;
        history := history + [Entry(serial, drained[i])];
        if |history| > HISTORY_LIMIT { history := history[1..]; }
      }
      assert drained[..|drained|] == drained;
    }

    method SelectAfter(cursor: int, limit: nat) returns (selected: seq<Entry>, next: int)
      ensures selected == Selected(history, cursor, limit)
      ensures next == if selected == [] then cursor else selected[|selected| - 1].serial
    {
      selected, next := [], cursor;
      var i := 0;
      while i < |history| && |selected| < limit
        invariant 0 <= i <= |history| && |selected| <= limit
        invariant selected + Selected(history[i..], cursor, limit - |selected|) == Selected(history, cursor, limit)
        invariant next == if selected == [] then cursor else selected[|selected| - 1].serial
      {
        assert history[i..][1..] == history[i + 1..];
        if history[i].serial > cursor {
          selected := selected + [history[i]];
          next := history[i].serial;
        }
        i := i + 1;
      }
    }

    /** A poll: refused for a bad limit or client, unavailable while the controller is. */
    method PollEvents(raw: string, limit: int, drained: Option<seq<Payload>>) returns (answer: Answer)
      requires Sound(View())
      modifies this
      ensures (View(), answer) == Asked(old(View()), raw, limit, drained) && Sound(View())
    {
      hide RecordAll, Sound, Remember, Selected, CursorOf;
      if !(1 <= limit <= 500) { return Refused; }
      var client := Strip(raw);
      if client == [] || |client| > 80 { return Refused; }
      if drained.None? { return Unavailable; }
      PollOk(View(), client, limit, drained.value);
      CursorCount(View(), drained.value);
      RecordDrained(drained.value);
      var oldest := if history == [] then serial + 1 else history[0].serial;
      var known := CursorOf(cursors, client);
      var cursor := if known.Some? then known.value else oldest - 1;
      var lost := if oldest - cursor - 1 > 0 then oldest - cursor - 1 else 0;
      if lost != 0 { cursor := oldest - 1; }
      var selected, next := SelectAfter(cursor, limit);
      RememberClientCursor(client, next);
      answer := Delivered(Reply(selected, lost));
    }
  }

  lemma CursorCount(s: State, drained: seq<Payload>)
    requires Sound(s)
    ensures |RecordAll(s, drained).cursors| <= CURSOR_LIMIT
  {
    RecordAllOk(s, drained);
  }
}
