// The verification gate: a plan built from the history of a run, its execution against the
// workspace, and the specification both meet: every file must still be what its last
// modification made it.

module Verify {
  import opened Common
  import opened Lists

  /** What a tool was called with; any other tool leaves no trace the plan looks at. */
  datatype Call =
    | FileWrite(path: string, content: string)
    | FileEdit(path: string, newText: string)
    | Bash(command: string)
    | OtherTool(tool: string)

  datatype Entry = Entry(step: nat, call: Call, ok: bool)

  /** A path of the workspace: a text file, or something that cannot be read as text. */
  datatype File = Regular(text: string) | Unreadable(isFile: bool)

  type Workspace = map<string, File>

  // ---- text as the file tools see it ----

  predicate Contains(text: string, part: string) {
    part <= text || (text != [] && Contains(text[1..], part))
  }

  /** Reading in text mode: every line ending becomes a line feed. */
  function Universal(raw: string): string {
    if raw == [] then []
    else if raw[0] == '\r' then
      ['\n'] + Universal(if |raw| > 1 && raw[1] == '\n' then raw[2..] else raw[1..])
    else [raw[0]] + Universal(raw[1..])
  }

  /** What the hash of a written file is computed from. */
  function Normalized(content: string): string {
    if |content| < 2 then content
    else if content[0] == '\r' && content[1] == '\n' then ['\n'] + Normalized(content[2..])
    else [content[0]] + Normalized(content[1..])
  }

  function LowerChar(c: char): char {
    if 'A' <= c <= 'Z' then (c as int + 32) as char else c
  }

  function Lower(s: string): string {
    Map(s, LowerChar)
  }

  /** The last component of a path, not counting empty ones and single dots. */
  function FileName(path: string): string {
    NameBefore(path, "")
  }

  function NameBefore(path: string, tail: string): string {
    var named := tail != "" && tail != ".";
    if path == [] then (if named then tail else "")
    else
      var n := |path| - 1;
      if path[n] != '/' then NameBefore(path[..n], [path[n]] + tail)
      else if named then tail
      else NameBefore(path[..n], "")
  }

  // ---- the plan ----

  datatype ClaimId =
    | ExistsClaim(path: string)
    | ContentClaim(path: string, step: nat)
    | EditClaim(path: string, step: nat)
    | HashClaim(path: string, step: nat)
    | CommandClaim

  datatype Kind =
    | FileExists(path: string)
    | FileContains(path: string, part: string)
    | FileHash(path: string, bytes: string)
    | History

  datatype Check = Check(kind: Kind, claims: seq<ClaimId>)

  datatype Plan = Plan(claims: seq<ClaimId>, checks: seq<Check>)

  predicate Modifies(e: Entry) {
    e.ok && (e.call.FileWrite? || e.call.FileEdit?)
  }

  /** The dictionaries of the plan builder, in insertion order. */
  type Table = seq<(string, Check)>

  /** Assignment keeps the position of a key that is already there. */
  function Put(t: Table, path: string, c: Check): Table {
    if t == [] then [(path, c)]
    else if t[0].0 == path then [(path, c)] + t[1..]
    else [t[0]] + Put(t[1..], path, c)
  }

  function Pop(t: Table, path: string): Table {
    if t == [] then []
    else if t[0].0 == path then t[1..]
    else [t[0]] + Pop(t[1..], path)
  }

  function ContentCheck(e: Entry): Check
    requires Modifies(e)
  {
    if e.call.FileWrite?
    then Check(FileContains(e.call.path, e.call.content), [ContentClaim(e.call.path, e.step)])
    else Check(FileContains(e.call.path, e.call.newText), [EditClaim(e.call.path, e.step)])
  }

  function HashCheck(e: Entry): Check
    requires e.call.FileWrite?
  {
    Check(FileHash(e.call.path, Normalized(e.call.content)), [HashClaim(e.call.path, e.step)])
  }

  datatype Draft = Draft(seen: seq<string>, contents: Table, hashes: Table)

  function Noted(d: Draft, e: Entry): Draft {
    if !Modifies(e) then d
    else
      Draft(if e.call.path in d.seen then d.seen else d.seen + [e.call.path],
            Put(d.contents, e.call.path, ContentCheck(e)),
            if e.call.FileWrite? then Put(d.hashes, e.call.path, HashCheck(e)) else Pop(d.hashes, e.call.path))
  }

  function DraftOf(history: seq<Entry>): Draft {
    if history == [] then Draft([], [], []) else Noted(DraftOf(history[..|history| - 1]), history[|history| - 1])
  }

  function ExistsCheck(path: string): Check {
    Check(FileExists(path), [ExistsClaim(path)])
  }

  function CheckIn(row: (string, Check)): Check { row.1 }

  function CommandChecks(seen: seq<string>): seq<Check> {
    if seen == [] then [] else [Check(History, [CommandClaim])]
  }

  function Claims(checks: seq<Check>): seq<ClaimId> {
    if checks == [] then [] else Claims(checks[..|checks| - 1]) + checks[|checks| - 1].claims
  }

  function PlanOf(history: seq<Entry>): Plan {
    var d := DraftOf(history);
    var checks := Map(d.seen, ExistsCheck) + Map(d.contents, CheckIn) + Map(d.hashes, CheckIn) + CommandChecks(d.seen);
    Plan(Claims(checks), checks)
  }

  // ---- its execution ----

  datatype Status = Passed | Failed | Incomplete

  datatype VerificationResult = VerificationResult(
    status: Status, evidence: seq<bool>, passed: set<ClaimId>, failed: set<ClaimId>, uncovered: set<ClaimId>,
    verifiedAfterLastWrite: bool)

  function LastWriteStep(history: seq<Entry>): nat {
    if history == [] then 0
    else
      var rest := LastWriteStep(history[..|history| - 1]);
      var e := history[|history| - 1];
      if Modifies(e) && e.step > rest then e.step else rest
  }

  function TouchedNames(history: seq<Entry>): seq<string> {
    if history == [] then []
    else
      var e := history[|history| - 1];
      TouchedNames(history[..|history| - 1]) + if Modifies(e) then [FileName(e.call.path)] else []
  }

  predicate LooksRelevant(command: string, names: seq<string>) {
    || Contains(Lower(command), "pytest")
    || exists i :: 0 <= i < |names| && Contains(Lower(command), Lower(names[i]))
  }

  /** A command at or after the given step that exercises what was modified. */
  predicate Relevant(e: Entry, step: nat, names: seq<string>) {
    e.call.Bash? && e.step >= step && LooksRelevant(e.call.command, names)
  }

  function LatestRelevant(history: seq<Entry>, step: nat, names: seq<string>): Option<Entry> {
    if history == [] then None
    else if Relevant(history[|history| - 1], step, names) then Some(history[|history| - 1])
    else LatestRelevant(history[..|history| - 1], step, names)
  }

  predicate Writes(history: seq<Entry>) {
    exists i :: 0 <= i < |history| && Modifies(history[i])
  }

  function VerifyingCommand(history: seq<Entry>): Option<Entry> {
    if Writes(history) then LatestRelevant(history, LastWriteStep(history), TouchedNames(history)) else None
  }

  /** The outcome of a check; None when reading the file as text raises an error. */
  function Outcome(files: Workspace, command: Option<Entry>, k: Kind): Option<bool> {
    match k
    case FileExists(path) => Some(path in files && (files[path].Regular? || files[path].isFile))
    case FileContains(path, part) =>
      if path !in files then Some(false)
      else if files[path].Unreadable? then None
      else Some(Contains(Universal(files[path].text), part))
    case FileHash(path, bytes) => Some(path in files && files[path] == Regular(bytes))
    case History => Some(command.Some? && command.value.ok)
  }

  datatype Tally = Tally(evidence: seq<bool>, passed: set<ClaimId>, failed: set<ClaimId>)

  function Counted(t: Tally, c: Check, passed: bool): Tally {
    var ids := set i | 0 <= i < |c.claims| :: c.claims[i];
    if passed then Tally(t.evidence + [true], t.passed + ids, t.failed)
    else Tally(t.evidence + [false], t.passed, t.failed + ids)
  }

  function Run(files: Workspace, command: Option<Entry>, checks: seq<Check>): Option<Tally> {
    if checks == [] then Some(Tally([], {}, {}))
    else
      var n := |checks| - 1;
      match Run(files, command, checks[..n])
      case None => None
      case Some(t) =>
        match Outcome(files, command, checks[n].kind)
        case None => None
        case Some(passed) => Some(Counted(t, checks[n], passed))
  }

  function Judged(plan: Plan, t: Tally, verified: bool): VerificationResult {
    var uncovered := set i | 0 <= i < |plan.claims| && plan.claims[i] !in t.passed + t.failed :: plan.claims[i];
    VerificationResult(if t.failed != {} then Failed else if uncovered != {} || !verified then Incomplete else Passed,
           t.evidence, t.passed, t.failed, uncovered, verified)
  }

  /** Executing a plan; None when a check raises. */
  function Execute(files: Workspace, history: seq<Entry>, plan: Plan): Option<VerificationResult> {
    match Run(files, VerifyingCommand(history), plan.checks)
    case None => None
    case Some(t) => Some(Judged(plan, t, !Writes(history) || VerifyingCommand(history).Some?))
  }

  // ---- the specification ----

  /** The last successful write or edit of a path. */
  function LastModification(history: seq<Entry>, path: string): Option<Entry> {
    if history == [] then None
    else
      var e := history[|history| - 1];
      if Modifies(e) && e.call.path == path then Some(e)
      else LastModification(history[..|history| - 1], path)
  }

  /** A path still is what the given modification made it. */
  predicate Intact(files: Workspace, e: Entry)
    requires Modifies(e)
  {
    && e.call.path in files && files[e.call.path].Regular?
    && var text := files[e.call.path].text;
       if e.call.FileWrite? then Contains(Universal(text), e.call.content) && text == Normalized(e.call.content)
       else Contains(Universal(text), e.call.newText)
  }

  ghost predicate IntactAt(files: Workspace, last: Option<Entry>) {
    last.Some? ==> Modifies(last.value) && Intact(files, last.value)
  }

  ghost predicate AllIntact(files: Workspace, history: seq<Entry>) {
    forall path :: IntactAt(files, LastModification(history, path))
  }

  /** What the gate is for: every modified path is intact and, if anything was modified, the
      latest relevant command at or after the last modification succeeded. */
  ghost predicate Verified(files: Workspace, history: seq<Entry>) {
    && AllIntact(files, history)
    && (Writes(history) ==> VerifyingCommand(history).Some? && VerifyingCommand(history).value.ok)
  }

  lemma {:induction false} LastModificationIs(history: seq<Entry>, path: string)
    ensures LastModification(history, path).Some? ==>
              Modifies(LastModification(history, path).value) && LastModification(history, path).value.call.path == path
  {
    if history != [] { LastModificationIs(history[..|history| - 1], path); }
  }

  // ---- the draft holds the last modification of every path ----

  /** No path has two rows. */
  ghost predicate Keyed(t: Table) {
    t == [] || ((forall c :: (t[0].0, c) !in t[1..]) && Keyed(t[1..]))
  }

  lemma {:induction false} PutRows(t: Table, path: string, c: Check)
    requires Keyed(t)
    ensures Keyed(Put(t, path, c))
    ensures forall p, d :: (p, d) in Put(t, path, c) <==> if p == path then d == c else (p, d) in t
  {
    if t != [] {
      assert t == [t[0]] + t[1..];
      assert t[0] == (t[0].0, t[0].1);
      if t[0].0 != path {
        PutRows(t[1..], path, c);
        assert Put(t, path, c)[1..] == Put(t[1..], path, c);
      } else {
        assert Put(t, path, c)[1..] == t[1..];
      }
    }
  }

  lemma {:induction false} PopRows(t: Table, path: string)
    requires Keyed(t)
    ensures Keyed(Pop(t, path))
    ensures forall p, d :: (p, d) in Pop(t, path) <==> p != path && (p, d) in t
  {
    if t != [] {
      assert t == [t[0]] + t[1..];
      assert t[0] == (t[0].0, t[0].1);
      if t[0].0 != path {
        PopRows(t[1..], path);
        assert Pop(t, path)[1..] == Pop(t[1..], path);
      }
    }
  }

  /** The draft lists the modified paths, the text each last modification put there, and the
      hash of those that were last written whole. */
  ghost predicate DraftOk(history: seq<Entry>, d: Draft) {
    && Keyed(d.contents) && Keyed(d.hashes)
    && (forall p :: p in d.seen <==> LastModification(history, p).Some?)
    && (forall p, c :: (p, c) in d.contents <==> IsContentRow(LastModification(history, p), c))
    && (forall p, c :: (p, c) in d.hashes <==> IsHashRow(LastModification(history, p), c))
  }

  predicate IsContentRow(last: Option<Entry>, c: Check) {
    last.Some? && Modifies(last.value) && c == ContentCheck(last.value)
  }

  predicate IsHashRow(last: Option<Entry>, c: Check) {
    last.Some? && last.value.call.FileWrite? && c == HashCheck(last.value)
  }

  lemma LastPush(history: seq<Entry>, e: Entry)
    ensures forall p :: LastModification(history + [e], p)
                        == if Modifies(e) && e.call.path == p then Some(e) else LastModification(history, p)
  {
    assert (history + [e])[..|history|] == history;
  }

  lemma NotedContents(history: seq<Entry>, d: Draft, e: Entry)
    requires DraftOk(history, d) && Modifies(e)
    ensures var t := Put(d.contents, e.call.path, ContentCheck(e));
            Keyed(t) && forall p, c :: (p, c) in t <==> IsContentRow(LastModification(history + [e], p), c)
  {
    LastPush(history, e);
    PutRows(d.contents, e.call.path, ContentCheck(e));
    hide Keyed, Put, LastModification;
  }

  lemma NotedHashes(history: seq<Entry>, d: Draft, e: Entry)
    requires DraftOk(history, d) && Modifies(e)
    ensures var t := Noted(d, e).hashes;
            Keyed(t) && forall p, c :: (p, c) in t <==> IsHashRow(LastModification(history + [e], p), c)
  {
    LastPush(history, e);
    if e.call.FileWrite? {
      PutRows(d.hashes, e.call.path, HashCheck(e));
    } else {
      PopRows(d.hashes, e.call.path);
    }
    hide Keyed, Put, Pop, LastModification;
  }

  lemma NotedOk(history: seq<Entry>, d: Draft, e: Entry)
    requires DraftOk(history, d)
    ensures DraftOk(history + [e], Noted(d, e))
  {
    LastPush(history, e);
    if Modifies(e) {
      NotedContents(history, d, e);
      NotedHashes(history, d, e);
    }
    hide Keyed, Put, Pop, LastModification, IsContentRow, IsHashRow;
  }

  lemma {:induction false} DraftOfOk(history: seq<Entry>)
    ensures DraftOk(history, DraftOf(history))
  {
    if history != [] {
      var n := |history| - 1;
      DraftOfOk(history[..n]);
      assert history == history[..n] + [history[n]];
      NotedOk(history[..n], DraftOf(history[..n]), history[n]);
    }
  }

  lemma {:induction false} WritesIff(history: seq<Entry>)
    ensures Writes(history) <==> DraftOf(history).seen != []
  {
    if history != [] {
      var n := |history| - 1;
      WritesIff(history[..n]);
      assert forall i :: 0 <= i < n ==> history[..n][i] == history[i];
    }
  }

  // ---- the verdict ----

  ghost predicate All(checks: seq<Check>, ok: Check -> bool) {
    forall c :: c in checks ==> ok(c)
  }

  function Readable(files: Workspace, command: Option<Entry>): Check -> bool {
    (c: Check) => Outcome(files, command, c.kind).Some?
  }

  function Passing(files: Workspace, command: Option<Entry>): Check -> bool {
    (c: Check) => Outcome(files, command, c.kind) == Some(true)
  }

  lemma AllPush(a: seq<Check>, c: Check, ok: Check -> bool)
    ensures All(a + [c], ok) <==> All(a, ok) && ok(c)
  {
    assert c in [c];
  }

  lemma {:induction false} RunMeans(files: Workspace, command: Option<Entry>, checks: seq<Check>)
    requires forall c :: c in checks ==> c.claims != []
    ensures var t := Run(files, command, checks);
            && (t.Some? <==> All(checks, Readable(files, command)))
            && (t.Some? ==> (t.value.failed == {} <==> All(checks, Passing(files, command)))
                            && forall id :: id in Claims(checks) ==> id in t.value.passed + t.value.failed)
  {
    if checks != [] {
      var n := |checks| - 1;
      var front, last := checks[..n], checks[n];
      assert checks == front + [last];
      RunMeans(files, command, front);
      AllPush(front, last, Readable(files, command));
      AllPush(front, last, Passing(files, command));
      hide Outcome, All;
      if Run(files, command, front).Some? && Outcome(files, command, last.kind).Some? {
        CountedMeans(Run(files, command, front).value, last, Outcome(files, command, last.kind).value);
        hide Counted;
      }
    }
  }

  lemma CountedMeans(t: Tally, c: Check, passed: bool)
    requires c.claims != []
    ensures var u := Counted(t, c, passed);
            && (u.failed == {} <==> t.failed == {} && passed)
            && t.passed + t.failed <= u.passed + u.failed
            && forall id :: id in c.claims ==> id in u.passed + u.failed
  {
    assert c.claims[0] in Counted(t, c, false).failed;
  }

  ghost predicate SeenOk(last: Option<Entry>, path: string, ok: Check -> bool) {
    last.Some? ==> ok(ExistsCheck(path))
  }

  ghost predicate ContentOk(last: Option<Entry>, ok: Check -> bool) {
    last.Some? ==> Modifies(last.value) && ok(ContentCheck(last.value))
  }

  ghost predicate HashOk(last: Option<Entry>, ok: Check -> bool) {
    last.Some? && last.value.call.FileWrite? ==> ok(HashCheck(last.value))
  }

  /** The checks of one path, made from its last modification. */
  ghost predicate PathAll(last: Option<Entry>, path: string, ok: Check -> bool) {
    SeenOk(last, path, ok) && ContentOk(last, ok) && HashOk(last, ok)
  }

  ghost predicate PathsAll(history: seq<Entry>, ok: Check -> bool) {
    forall p :: PathAll(LastModification(history, p), p, ok)
  }

  lemma SeenAll(history: seq<Entry>, ok: Check -> bool)
    ensures All(Map(DraftOf(history).seen, ExistsCheck), ok)
            <==> forall p :: SeenOk(LastModification(history, p), p, ok)
  {
    DraftOfOk(history);
    var seen := DraftOf(history).seen;
    hide DraftOf, LastModification, Keyed, IsContentRow, IsHashRow;
    if All(Map(seen, ExistsCheck), ok) {
      forall p ensures SeenOk(LastModification(history, p), p, ok) {
        if LastModification(history, p).Some? { assert p in seen; }
      }
    } else {
      var p :| p in seen && !ok(ExistsCheck(p));
      assert LastModification(history, p).Some?;
      assert !SeenOk(LastModification(history, p), p, ok);
    }
  }

  lemma RowsAll(t: Table, ok: Check -> bool)
    ensures All(Map(t, CheckIn), ok) <==> forall p, c :: (p, c) in t ==> ok(c)
  {
    if forall p, c :: (p, c) in t ==> ok(c) {
      forall x | x in t ensures ok(CheckIn(x)) { assert (x.0, x.1) in t; }
    }
    if forall x :: x in t ==> ok(CheckIn(x)) {
      forall p, c | (p, c) in t ensures ok(c) { assert CheckIn((p, c)) == c; }
    }
  }

  lemma ContentsAll(history: seq<Entry>, ok: Check -> bool)
    ensures All(Map(DraftOf(history).contents, CheckIn), ok) <==> forall p :: ContentOk(LastModification(history, p), ok)
  {
    DraftOfOk(history);
    var t := DraftOf(history).contents;
    RowsAll(t, ok);
    hide DraftOf, Keyed, ContentCheck, Modifies, IsHashRow, LastModification;
    if All(Map(t, CheckIn), ok) {
      forall p ensures ContentOk(LastModification(history, p), ok) {
        LastModificationIs(history, p);
        if LastModification(history, p).Some? { assert (p, ContentCheck(LastModification(history, p).value)) in t; }
      }
    } else {
      var p, c :| (p, c) in t && !ok(c);
      assert IsContentRow(LastModification(history, p), c);
      assert !ContentOk(LastModification(history, p), ok);
    }
  }

  lemma HashesAll(history: seq<Entry>, ok: Check -> bool)
    ensures All(Map(DraftOf(history).hashes, CheckIn), ok) <==> forall p :: HashOk(LastModification(history, p), ok)
  {
    DraftOfOk(history);
    var t := DraftOf(history).hashes;
    RowsAll(t, ok);
    hide DraftOf, Keyed, HashCheck, IsContentRow, LastModification;
    if All(Map(t, CheckIn), ok) {
      forall p ensures HashOk(LastModification(history, p), ok) {
        if LastModification(history, p).Some? && LastModification(history, p).value.call.FileWrite? {
          assert (p, HashCheck(LastModification(history, p).value)) in t;
        }
      }
    } else {
      var p, c :| (p, c) in t && !ok(c);
      assert IsHashRow(LastModification(history, p), c);
      assert !HashOk(LastModification(history, p), ok);
    }
  }

  lemma PathsAllIs(history: seq<Entry>, ok: Check -> bool)
    ensures PathsAll(history, ok) <==>
              && (forall p :: SeenOk(LastModification(history, p), p, ok))
              && (forall p :: ContentOk(LastModification(history, p), ok))
              && (forall p :: HashOk(LastModification(history, p), ok))
  {
    hide LastModification, SeenOk, ContentOk, HashOk;
    if PathsAll(history, ok) {
      forall p ensures SeenOk(LastModification(history, p), p, ok) && ContentOk(LastModification(history, p), ok)
                       && HashOk(LastModification(history, p), ok)
      {
        assert PathAll(LastModification(history, p), p, ok);
      }
    } else {
      var p :| !PathAll(LastModification(history, p), p, ok);
      assert !SeenOk(LastModification(history, p), p, ok) || !ContentOk(LastModification(history, p), ok)
             || !HashOk(LastModification(history, p), ok);
    }
  }

  /** All checks of a plan: those of every modified path, and the command check. */
  lemma PlanAll(history: seq<Entry>, ok: Check -> bool)
    ensures All(PlanOf(history).checks, ok)
            <==> PathsAll(history, ok) && (Writes(history) ==> ok(Check(History, [CommandClaim])))
  {
    var d := DraftOf(history);
    var a, b, c := Map(d.seen, ExistsCheck), Map(d.contents, CheckIn), Map(d.hashes, CheckIn);
    SeenAll(history, ok);
    ContentsAll(history, ok);
    HashesAll(history, ok);
    WritesIff(history);
    PathsAllIs(history, ok);
    assert All(CommandChecks(d.seen), ok) <==> (d.seen == [] || ok(Check(History, [CommandClaim])));
    hide LastModification, DraftOf, ExistsCheck, CheckIn, SeenOk, ContentOk, HashOk, All, PathsAll;
  }

  lemma PlanClaims(history: seq<Entry>)
    ensures forall c :: c in PlanOf(history).checks ==> c.claims != []
  {
    var named := (c: Check) => c.claims != [];
    PlanAll(history, named);
    forall p ensures PathAll(LastModification(history, p), p, named) { LastModificationIs(history, p); }
    hide PlanOf;
    assert All(PlanOf(history).checks, named);
  }

  /** One path passes its checks iff it is intact; one is unreadable iff it is no text file. */
  lemma PathPasses(files: Workspace, command: Option<Entry>, e: Entry)
    requires Modifies(e)
    ensures PathAll(Some(e), e.call.path, Passing(files, command)) <==> Intact(files, e)
    ensures PathAll(Some(e), e.call.path, Readable(files, command))
            <==> !(e.call.path in files && files[e.call.path].Unreadable?)
  {
    hide Contains, Universal, Normalized;
    assert Outcome(files, command, ExistsCheck(e.call.path).kind).Some?;
  }

  lemma IntactIff(files: Workspace, history: seq<Entry>)
    ensures PathsAll(history, Passing(files, VerifyingCommand(history)))
            <==> AllIntact(files, history)
  {
    var command := VerifyingCommand(history);
    forall p ensures PathAll(LastModification(history, p), p, Passing(files, command))
                     <==> IntactAt(files, LastModification(history, p))
    {
      LastModificationIs(history, p);
      if LastModification(history, p).Some? { PathPasses(files, command, LastModification(history, p).value); }
    }
    hide PathAll, VerifyingCommand, Passing, IntactAt;
  }

  lemma VerifiedIff(files: Workspace, history: seq<Entry>)
    ensures Verified(files, history) <==> All(PlanOf(history).checks, Passing(files, VerifyingCommand(history)))
  {
    PlanAll(history, Passing(files, VerifyingCommand(history)));
    IntactIff(files, history);
    assert Passing(files, VerifyingCommand(history))(Check(History, [CommandClaim]))
           <==> VerifyingCommand(history).Some? && VerifyingCommand(history).value.ok;
    hide LastModification, IntactAt, PlanOf, All, VerifyingCommand, Writes, Passing, PathAll;
  }

  /** The gate does what it is for: unless a modified path cannot be read as text, its verdict
      is passed iff every modified path is intact and the latest relevant command succeeded;
      it is never "incomplete", and a run that modified nothing passes. */
  lemma VerdictIsSpecification(files: Workspace, history: seq<Entry>)
    ensures var r := Execute(files, history, PlanOf(history));
            && (r.None? <==> exists p :: LastModification(history, p).Some? && p in files && files[p].Unreadable?)
            && (r.Some? ==>
                  && r.value.status != Incomplete
                  && (r.value.status == Passed <==> Verified(files, history)))
            && (!Writes(history) ==> r.Some? && r.value.status == Passed)
  {
    var command := VerifyingCommand(history);
    var checks := PlanOf(history).checks;
    PlanClaims(history);
    RunMeans(files, command, checks);
    PlanAll(history, Readable(files, command));
    VerifiedIff(files, history);
    Unmodified(history);
    UnreadableIff(files, history);
    assert Readable(files, command)(Check(History, [CommandClaim]));
    CommandNeeded(files, history);
    hide LastModification, Outcome, Intact, PlanOf, Run, All, VerifyingCommand, Writes, PathAll, Verified, Readable, Passing;
  }

  lemma CommandNeeded(files: Workspace, history: seq<Entry>)
    ensures Verified(files, history) && Writes(history) ==> VerifyingCommand(history).Some?
    ensures !Writes(history) ==> Verified(files, history)
    ensures PlanOf(history).claims == Claims(PlanOf(history).checks)
  {
    Unmodified(history);
  }

  lemma UnreadableIff(files: Workspace, history: seq<Entry>)
    ensures PathsAll(history, Readable(files, VerifyingCommand(history)))
            <==> !exists p :: LastModification(history, p).Some? && p in files && files[p].Unreadable?
  {
    var command := VerifyingCommand(history);
    forall p ensures PathAll(LastModification(history, p), p, Readable(files, command))
                     <==> !(LastModification(history, p).Some? && p in files && files[p].Unreadable?)
    {
      LastModificationIs(history, p);
      if LastModification(history, p).Some? { PathPasses(files, command, LastModification(history, p).value); }
    }
    hide PathAll, VerifyingCommand, Readable;
  }

  lemma {:induction false} Unmodified(history: seq<Entry>)
    ensures Writes(history) <==> exists p :: LastModification(history, p).Some?
  {
    DraftOfOk(history);
    WritesIff(history);
    var d := DraftOf(history);
    hide DraftOf, Keyed, IsContentRow, IsHashRow, LastModification;
    if d.seen != [] {
      assert d.seen[0] in d.seen;
      assert LastModification(history, d.seen[0]).Some?;
    } else {
      assert forall p :: p !in d.seen;
    }
  }

  /** The verifying command is a relevant one, and none after it is relevant; there is one iff
      some command at or after the last modification is relevant. */
  lemma {:induction false} LatestRelevantIs(history: seq<Entry>, step: nat, names: seq<string>)
    ensures LatestRelevant(history, step, names).Some?
            <==> exists i :: 0 <= i < |history| && Relevant(history[i], step, names)
    ensures LatestRelevant(history, step, names).Some? ==>
              exists i :: 0 <= i < |history| && history[i] == LatestRelevant(history, step, names).value
                          && Relevant(history[i], step, names)
                          && forall j :: i < j < |history| ==> !Relevant(history[j], step, names)
  {
    hide Relevant;
    if history != [] {
      var n := |history| - 1;
      LatestRelevantIs(history[..n], step, names);
      assert forall i :: 0 <= i < n ==> history[..n][i] == history[i];
      if LatestRelevant(history[..n], step, names).Some? && !Relevant(history[n], step, names) {
        var i :| 0 <= i < n && history[..n][i] == LatestRelevant(history[..n], step, names).value
                 && Relevant(history[..n][i], step, names)
                 && forall j :: i < j < n ==> !Relevant(history[..n][j], step, names);
        assert forall j :: i < j < n ==> !Relevant(history[j], step, names);
        assert history[i] == LatestRelevant(history, step, names).value;
      }
    }
  }

  // ---- line endings ----

  lemma {:induction false} UniversalHasNoReturn(raw: string)
    ensures '\r' !in Universal(raw)
    ensures '\r' !in raw ==> Universal(raw) == raw
    decreases |raw|
  {
    if raw != [] {
      UniversalHasNoReturn(raw[1..]);
      if |raw| > 1 { UniversalHasNoReturn(raw[2..]); }
      assert raw == [raw[0]] + raw[1..];
    }
  }

  lemma {:induction false} NormalizedKeeps(content: string)
    requires '\r' !in content
    ensures Normalized(content) == content
  {
    if |content| >= 2 {
      NormalizedKeeps(content[1..]);
      assert content == [content[0]] + content[1..];
    }
  }

  lemma {:induction false} ContainsItsCharacters(text: string, part: string, c: char)
    requires Contains(text, part) && c in part
    ensures c in text
  {
    if !(part <= text) { ContainsItsCharacters(text[1..], part, c); }
  }

  /** A file that holds exactly what was written verifies iff the text has no carriage return:
      the check reads the file back with line endings translated, the tool wrote them as given. */
  lemma FreshWriteVerifies(files: Workspace, e: Entry)
    requires Modifies(e) && e.call.FileWrite? && e.call.path in files && files[e.call.path] == Regular(e.call.content)
    ensures Intact(files, e) <==> '\r' !in e.call.content
  {
    var content := e.call.content;
    UniversalHasNoReturn(content);
    if '\r' in content {
      if Contains(Universal(content), content) { ContainsItsCharacters(Universal(content), content, '\r'); }
    } else {
      NormalizedKeeps(content);
    }
  }

  // ---- the functions as they are written ----

  method BuildVerificationPlan(history: seq<Entry>) returns (plan: Plan)
    ensures plan == PlanOf(history)
  {
    var paths: seq<string>, contents: Table, hashes: Table := [], [], [];
    var claims: seq<ClaimId>, checks: seq<Check> := [], [];
    for i := 0 to |history|
      invariant Draft(paths, contents, hashes) == DraftOf(history[..i])
      invariant checks == Map(paths, ExistsCheck) && claims == Claims(checks)
    {
      var e := history[i];
      assert history[..i + 1][..i] == history[..i];
      hide Claims, ContentCheck, HashCheck, Put, Pop;
      if Modifies(e) {
        var path := e.call.path;
        if path !in paths {
          assert Map(paths + [path], ExistsCheck) == Map(paths, ExistsCheck) + [ExistsCheck(path)];
          paths := paths + [path];
          claims, checks := claims + [ExistsClaim(path)], checks + [ExistsCheck(path)];
        }
        contents := Put(contents, path, ContentCheck(e));
        hashes := if e.call.FileWrite? then Put(hashes, path, HashCheck(e)) else Pop(hashes, path);
      }
    }
    assert history[..|history|] == history;
    plan := FinishPlan(Draft(paths, contents, hashes), claims, checks);
  }

  /** The checks of the dictionaries and of the command, after those of the paths. */
  method FinishPlan(d: Draft, claims: seq<ClaimId>, checks: seq<Check>) returns (plan: Plan)
    requires checks == Map(d.seen, ExistsCheck) && claims == Claims(checks)
    ensures plan.checks == Map(d.seen, ExistsCheck) + Map(d.contents, CheckIn) + Map(d.hashes, CheckIn) + CommandChecks(d.seen)
    ensures plan.claims == Claims(plan.checks)
  {
    var c, k := AddRows(claims, checks, d.contents);
    c, k := AddRows(c, k, d.hashes);
    if d.seen != [] {
      c, k := c + [CommandClaim], k + [Check(History, [CommandClaim])];
    }
    plan := Plan(c, k);
  }

  /** Appends the claims and checks of a table. */
  lemma ClaimsPush(checks: seq<Check>, c: Check)
    ensures Claims(checks + [c]) == Claims(checks) + c.claims
  {
    assert (checks + [c])[..|checks|] == checks;
  }

  method AddRows(claims: seq<ClaimId>, checks: seq<Check>, t: Table) returns (c: seq<ClaimId>, k: seq<Check>)
    requires claims == Claims(checks)
    ensures k == checks + Map(t, CheckIn) && c == Claims(k)
  {
    c, k := claims, checks;
    for i := 0 to |t|
      invariant k == checks + Map(t[..i], CheckIn) && c == Claims(k)
    {
      ClaimsPush(k, t[i].1);
      hide Claims;
      assert Map(t[..i + 1], CheckIn) == Map(t[..i], CheckIn) + [t[i].1];
      c, k := c + t[i].1.claims, k + [t[i].1];
    }
    assert t[..|t|] == t;
  }

  method FindLatestRelevantBash(history: seq<Entry>, lastWriteStep: nat) returns (found: Option<Entry>)
    ensures found == LatestRelevant(history, lastWriteStep, TouchedNames(history))
  {
    hide LooksRelevant;
    var names := [];
    for i := 0 to |history|
      invariant names == TouchedNames(history[..i])
    {
      assert history[..i + 1][..i] == history[..i];
      if Modifies(history[i]) { names := names + [FileName(history[i].call.path)]; }
      assert names + [] == names;
    }
    assert history[..|history|] == history;
    var n := |history|;
    while n > 0
      invariant 0 <= n <= |history|
      invariant LatestRelevant(history[..n], lastWriteStep, names) == LatestRelevant(history, lastWriteStep, names)
    {
      var e := history[n - 1];
      assert history[..n][..n - 1] == history[..n - 1];
      n := n - 1;
      if e.call.Bash? && e.step >= lastWriteStep && LooksRelevant(e.call.command, names) { return Some(e); }
    }
    found := None;
  }

  method ExecuteVerificationPlan(files: Workspace, history: seq<Entry>, plan: Plan) returns (r: Option<VerificationResult>)
    ensures r == Execute(files, history, plan)
  {
    hide LatestRelevant, TouchedNames;
    var step, writes := 0, false;
    for i := 0 to |history|
      invariant step == LastWriteStep(history[..i]) && writes == Writes(history[..i])
    {
      assert history[..i + 1][..i] == history[..i];
      WritesPush(history[..i], history[i]);
      assert history[..i + 1] == history[..i] + [history[i]];
      if Modifies(history[i]) {
        writes := true;
        if history[i].step > step { step := history[i].step; }
      }
    }
    assert history[..|history|] == history;
    var command := None;
    if writes { command := FindLatestRelevantBash(history, step); }
    var t := Tally([], {}, {});
    for i := 0 to |plan.checks|
      invariant Run(files, command, plan.checks[..i]) == Some(t)
    {
      assert plan.checks[..i + 1][..i] == plan.checks[..i];
      var passed := Outcome(files, command, plan.checks[i].kind);
      if passed.None? {
        RaisesEarly(files, command, plan.checks, i + 1);
        return None;
      }
      t := Counted(t, plan.checks[i], passed.value);
    }
    assert plan.checks[..|plan.checks|] == plan.checks;
    r := Some(Judged(plan, t, !writes || command.Some?));
  }

  lemma WritesPush(history: seq<Entry>, e: Entry)
    ensures Writes(history + [e]) <==> Writes(history) || Modifies(e)
  {
    var all := history + [e];
    assert all[|history|] == e;
    assert forall i :: 0 <= i < |history| ==> all[i] == history[i];
  }

  /** A check that raises ends the execution. */
  lemma {:induction false} RaisesEarly(files: Workspace, command: Option<Entry>, checks: seq<Check>, n: nat)
    requires n <= |checks| && Run(files, command, checks[..n]).None?
    ensures Run(files, command, checks).None?
  {
    hide Outcome;
    if n == |checks| {
      assert checks[..n] == checks;
    } else {
      var m := |checks| - 1;
      assert checks[..m][..n] == checks[..n];
      RaisesEarly(files, command, checks[..m], n);
    }
  }
}
