// What one poll of a desktop client answers, computed from the payloads published since the
// last reset and the place the client had reached.

module FanoutRules {
  import opened Common
  import opened DesktopFanout

  /** How many of so many payloads the history has let go: all but the last 2048. */
  function Forgotten(total: nat): nat {
    if total > 2048 then total - 2048 else 0
  }

  /** The answer to a client that had reached at, or is unknown, when so many payloads have been
      published: those after that place, or after what the history has let go, in order and under
      their numbers, up to the limit; and how many it will never see. */
  ghost predicate Answers(ps: seq<Payload>, at: Option<int>, limit: nat, reply: Reply, reached: int) {
    var gone := Forgotten(|ps|);
    var from := match at case None => gone case Some(c) => if c < gone then gone else c;
    && 0 <= from <= |ps|
    && |reply.entries| == (if |ps| - from < limit then |ps| - from else limit)
    && (forall i :: 0 <= i < |reply.entries| ==>
          reply.entries[i].serial == from + 1 + i && reply.entries[i].payload == ps[reply.entries[i].serial - 1])
    && reply.mirrorDropped == (match at case None => 0 case Some(c) => from - c)
    && reached == from + |reply.entries|
  }

  lemma OldestIs(s: State)
    requires Sound(s) && Full(s) && 0 <= s.serial
    ensures Oldest(s) == Forgotten(s.serial) + 1
  {
  }

  lemma StartIs(s: State, client: string)
    requires Sound(s) && Full(s) && 0 <= s.serial
    ensures var (gone, at) := (Forgotten(s.serial), CursorOf(s.cursors, client));
            var from := match at case None => gone case Some(c) => if c < gone then gone else c;
            && Start(s, client) == (from, match at case None => 0 case Some(c) => from - c)
            && from <= s.serial
  {
    OldestIs(s);
    StartOk(s, client);
    hide Sound, Full, CursorOf, Oldest;
  }

  lemma PollIs(s: State, op: Op, before: seq<Payload>)
    requires op.PollOp? && 1 <= op.limit && Sound(s) && Full(s) && 0 <= s.serial && Mirrors(s, before)
    ensures var ((t, reply), at) := (Poll(s, op.client, op.limit, op.drained), CursorOf(s.cursors, op.client));
            && CursorOf(t.cursors, op.client).Some?
            && Answers(before + op.drained, at, op.limit, reply, CursorOf(t.cursors, op.client).value)
  {
    hide Poll, RecordAll, Start, CursorOf, Sound, Remember, Full, Oldest, Mirrors;
    PollDelivers(s, op.client, op.limit, op.drained);
    RecordMirrors(s, before, op.drained);
    RecordFull(s, op.drained);
    RecordAllOk(s, op.drained);
    var r := RecordAll(s, op.drained);
    StartIs(r, op.client);
    EntriesAre(r, before + op.drained, Poll(s, op.client, op.limit, op.drained).1.entries);
    SerialIs(r, before + op.drained);
  }

  lemma SerialIs(r: State, ps: seq<Payload>)
    requires Mirrors(r, ps)
    ensures r.serial == |ps|
  {
  }

  /** Every poll of every run answers so. */
  lemma PollAnswers(trace: seq<State>, ops: seq<Op>, n: nat)
    requires Behaviour(trace, ops) && n < |ops| && ops[n].PollOp?
    ensures var (at, next) := (CursorOf(trace[n].cursors, ops[n].client), CursorOf(trace[n + 1].cursors, ops[n].client));
            next.Some? && Answers(Published(ops[..n + 1]), at, ops[n].limit, ReplyAt(trace, ops, n), next.value)
  {
    ReachableMirrors(trace, ops, n);
    ReachableOk(trace, ops, n);
    FullHistory(trace, ops, n);
    Turn(trace, ops, n);
    assert ops[..n + 1][..n] == ops[..n] && ops[..n + 1][n] == ops[n];
    assert Published(ops[..n + 1]) == Published(ops[..n]) + ops[n].drained;
    hide Behaviour, Mirrors, Sound, Full, Poll, Published, CursorOf, Answers;
    PollIs(trace[n], ops[n], Published(ops[..n]));
  }

  /** A client may be forgotten only when 32 others came after it, or at a reset. */
  lemma KnownIff(trace: seq<State>, ops: seq<Op>, m: nat, n: nat)
    requires Behaviour(trace, ops) && m < n < |trace| && ops[m].PollOp?
    requires forall i :: m < i < n ==> !PolledBy(ops[i], ops[m].client)
    ensures CursorOf(trace[n].cursors, ops[m].client).Some?
            <==> (forall i :: m < i < n ==> ops[i].PollOp?) && |Pollers(ops, m + 1, n)| < 32
  {
    ForgottenIff(trace, ops, m, n);
    hide Behaviour, CursorOf, Pollers;
  }

  /** A request with a limit outside 1 to 500, or a client name that is blank or longer than 80
      characters, is refused, and one on a closed runtime is turned away; neither changes
      anything. Any other is answered under the name without its white space. */
  lemma AskedIs(s: State, raw: string, limit: int, drained: Option<seq<Payload>>)
    ensures var ((t, answer), client) := (Asked(s, raw, limit, drained), Strip(raw));
            if limit < 1 || 500 < limit || client == "" || |client| > 80 then answer == Refused && t == s
            else if drained.None? then answer == Unavailable && t == s
            else answer == Delivered(Poll(s, client, limit, drained.value).1) && t == Poll(s, client, limit, drained.value).0
  {
    hide Strip, Poll;
  }
}
