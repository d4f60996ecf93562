// What the verification gate checks, said of the entries of a history and the files: which
// commands count, which files must be how, and which claims fail.

module VerifyRules {
  import opened Common
  import opened Lists
  import opened Verify

  // ---- the text functions ----

  lemma {:induction false} ContainsIff(text: string, part: string)
    ensures Contains(text, part) <==> exists k: nat :: TextAt(text, k, part)
  {
    AtStart(text, part);
    if part <= text {
      assert TextAt(text, 0, part);
    } else if text != [] {
      ContainsIff(text[1..], part);
      if k: nat :| TextAt(text[1..], k, part) {
        Later(text, k, part);
        assert TextAt(text, k + 1, part);
      }
      if k: nat :| TextAt(text, k, part) {
        Later(text, k - 1, part);
        assert TextAt(text[1..], k - 1, part);
      }
    } else {
      forall k: nat ensures !TextAt(text, k, part) {}
    }
  }

  lemma AtStart(text: string, part: string)
    ensures part <= text <==> TextAt(text, 0, part)
  {
  }

  lemma Later(text: string, k: nat, part: string)
    requires text != []
    ensures TextAt(text[1..], k, part) <==> TextAt(text, k + 1, part)
  {
    if k + 1 + |part| <= |text| { assert text[1..][k..k + |part|] == text[k + 1..k + 1 + |part|]; }
  }

  /** One letter, whatever its case. */
  predicate SameLetter(a: char, b: char) {
    || a == b
    || ('A' <= a <= 'Z' && b as int == a as int + 32)
    || ('A' <= b <= 'Z' && a as int == b as int + 32)
  }

  /** A word in a text, whatever the case of its letters. */
  ghost predicate Mentions(text: string, word: string) {
    exists k: nat :: MentionsAt(text, k, word)
  }

  ghost predicate MentionsAt(text: string, k: nat, word: string) {
    k + |word| <= |text| && forall i :: 0 <= i < |word| ==> SameLetter(text[k + i], word[i])
  }

  lemma LowerMeets(text: string, word: string, k: nat)
    ensures TextAt(Lower(text), k, Lower(word)) <==> MentionsAt(text, k, word)
  {
    var a, b := Lower(text), Lower(word);
    forall i | k + |word| <= |text| && 0 <= i < |word| ensures a[k + i] == b[i] <==> SameLetter(text[k + i], word[i]) {}
    if MentionsAt(text, k, word) {
      assert a[k..k + |b|] == b;
    }
    if TextAt(a, k, b) {
      forall i | 0 <= i < |word| ensures a[k + i] == b[i] { assert a[k..k + |b|][i] == b[i]; }
    }
  }

  lemma MentionsIff(text: string, word: string)
    ensures Contains(Lower(text), Lower(word)) <==> Mentions(text, word)
  {
    ContainsIff(Lower(text), Lower(word));
    forall k: nat ensures TextAt(Lower(text), k, Lower(word)) <==> MentionsAt(text, k, word) { LowerMeets(text, word, k); }
    hide Contains, Lower, TextAt, MentionsAt;
  }

  /** Reading translates each line ending by itself: the pair, and the return on its own. With
      what UniversalHasNoReturn says of texts without a return, this is all there is to it. */
  lemma {:induction false} UniversalTranslates(a: string, b: string)
    ensures a == [] || a[|a| - 1] != '\r' || b == [] || b[0] != '\n' ==> Universal(a + b) == Universal(a) + Universal(b)
    ensures Universal("\r\n") == "\n" && Universal("\r") == "\n"
    decreases |a|
  {
    if a == [] {
      assert a + b == b;
    } else {
      assert (a + b)[1..] == a[1..] + b;
      UniversalTranslates(a[1..], b);
      if |a| > 1 {
        assert (a + b)[2..] == a[2..] + b;
        UniversalTranslates(a[2..], b);
      }
    }
  }

  lemma NormalizedStep(c: string)
    requires c != []
    ensures Normalized(c) == if Pair(c) then ['\n'] + Normalized(c[2..]) else [c[0]] + Normalized(c[1..])
  {
    if |c| < 2 { assert c == [c[0]] + []; }
  }

  predicate Pair(c: string) {
    |c| >= 2 && c[0] == '\r' && c[1] == '\n'
  }

  /** What is hashed has the pairs replaced, and only those. */
  lemma {:induction false} NormalizedReplaces(a: string, b: string)
    requires a == [] || a[|a| - 1] != '\r' || b == [] || b[0] != '\n'
    ensures Normalized(a + b) == Normalized(a) + Normalized(b)
    decreases |a|
  {
    hide Normalized;
    if a == [] {
      NormalizedEmpty();
      assert a + b == b;
    } else {
      var first, n := if Pair(a) then ['\n'] else [a[0]], if Pair(a) then 2 else 1;
      NormalizedReplaces(a[n..], b);
      SameStart(a, b, n);
      NormalizedStep(a);
      NormalizedStep(a + b);
      Regroup(first, Normalized(a[n..]), Normalized(b));
    }
  }

  lemma NormalizedEmpty()
    ensures Normalized("") == ""
  {
  }

  lemma SameStart(a: string, b: string, n: nat)
    requires a != [] && n == if Pair(a) then 2 else 1
    requires a[|a| - 1] != '\r' || b == [] || b[0] != '\n'
    ensures Pair(a + b) == Pair(a) && (a + b)[n..] == a[n..] + b && (a + b)[0] == a[0]
  {
  }

  lemma Regroup(a: string, b: string, c: string)
    ensures a + (b + c) == a + b + c
  {
  }

  lemma PairIsReplaced()
    ensures Normalized("\r\n") == "\n"
  {
  }

  lemma {:induction false} NormalizedLeaves(content: string)
    requires forall i :: 0 <= i < |content| - 1 ==> !(content[i] == '\r' && content[i + 1] == '\n')
    ensures Normalized(content) == content
  {
    if |content| >= 2 {
      NormalizedLeaves(content[1..]);
      assert content == [content[0]] + content[1..];
    }
  }

  /** The file name of a path: the part behind the last slash, unless nothing or a single dot
      is there; a path without any such part has none. */
  lemma {:induction false} NamedBehind(path: string, name: string)
    requires '/' !in name
    ensures FileName(path + "/" + name) == if name == "" || name == "." then FileName(path) else name
    ensures FileName(name) == if name == "." then "" else name
  {
    Walk(path + "/", name, "");
    Walk("", name, "");
    assert path + "/" + name == (path + "/") + name;
    assert name + "" == name && "" + name == name;
    assert (path + "/")[..|path|] == path;
    assert (path + "/")[|path|] == '/';
  }

  lemma {:induction false} Walk(path: string, name: string, tail: string)
    requires '/' !in name
    ensures NameBefore(path + name, tail) == NameBefore(path, name + tail)
  {
    if name == [] {
      assert path + name == path && name + tail == tail;
    } else {
      var n := |name| - 1;
      assert (path + name)[..|path| + n] == path + name[..n];
      assert (path + name)[|path| + n] == name[n];
      Walk(path, name[..n], [name[n]] + tail);
      assert name[..n] + ([name[n]] + tail) == name + tail;
    }
  }

  // ---- what counts as what ----

  /** A file was written or edited, and the tool said so. */
  predicate Changed(e: Entry) {
    match e.call
    case FileWrite(_, _) => e.ok
    case FileEdit(_, _) => e.ok
    case Bash(_) => false
    case OtherTool(_) => false
  }

  ghost predicate Touched(history: seq<Entry>, j: nat, path: string) {
    j < |history| && Changed(history[j]) && history[j].call.path == path
  }

  /** The last entry that changed its path. */
  ghost predicate LastChange(history: seq<Entry>, i: nat) {
    && i < |history| && Changed(history[i])
    && forall j: nat :: i < j ==> !Touched(history, j, history[i].call.path)
  }

  /** The text is there; a file that was written whole is byte for byte what was written, with
      its line endings normalised. */
  ghost predicate AsLeft(files: Workspace, e: Entry)
    requires Changed(e)
  {
    && e.call.path in files && files[e.call.path].Regular?
    && var text := files[e.call.path].text;
       match e.call
       case FileWrite(_, content) => text == Normalized(content) && exists k: nat :: TextAt(Universal(text), k, content)
       case FileEdit(_, newText) => exists k: nat :: TextAt(Universal(text), k, newText)
  }

  /** A command that names pytest or a changed file, in any case. */
  ghost predicate Exercises(history: seq<Entry>, e: Entry) {
    && e.call.Bash?
    && (|| Mentions(e.call.command, "pytest")
        || exists j: nat :: j < |history| && Changed(history[j]) && Mentions(e.call.command, FileName(history[j].call.path)))
  }

  /** A relevant command at position i, no earlier than any change. */
  ghost predicate Tests(history: seq<Entry>, i: nat) {
    && i < |history| && Exercises(history, history[i])
    && forall j: nat :: j < |history| && Changed(history[j]) ==> history[j].step <= history[i].step
  }

  ghost predicate AnyChange(history: seq<Entry>) {
    exists i: nat :: i < |history| && Changed(history[i])
  }

  /** The last of the commands that test succeeded. */
  ghost predicate TestedAt(history: seq<Entry>, i: nat) {
    Tests(history, i) && history[i].ok && forall k: nat :: i < k ==> !Tests(history, k)
  }

  lemma ChangedIff(e: Entry)
    ensures Modifies(e) <==> Changed(e)
  {
  }

  // ---- the last write and the commands after it ----

  /** The step of the last write is the greatest step of any change. */
  lemma {:induction false} LastWriteIsGreatest(history: seq<Entry>)
    ensures forall j: nat :: j < |history| && Changed(history[j]) ==> history[j].step <= LastWriteStep(history)
    ensures LastWriteStep(history) == 0 || exists j: nat :: j < |history| && Changed(history[j]) && history[j].step == LastWriteStep(history)
  {
    if history != [] {
      var n := |history| - 1;
      LastWriteIsGreatest(history[..n]);
      ChangedIff(history[n]);
      assert forall j: nat :: j < n ==> history[..n][j] == history[j];
      assert (Changed(history[n]) && LastWriteStep(history) == history[n].step) || LastWriteStep(history) == LastWriteStep(history[..n]);
    }
  }

  lemma {:induction false} NamesAre(history: seq<Entry>, name: string)
    ensures name in TouchedNames(history) <==> exists j: nat :: j < |history| && Changed(history[j]) && FileName(history[j].call.path) == name
  {
    hide FileName;
    if history != [] {
      var n := |history| - 1;
      NamesAre(history[..n], name);
      ChangedIff(history[n]);
      assert forall j: nat :: j < n ==> history[..n][j] == history[j];
    }
  }

  lemma RelevantIff(history: seq<Entry>, i: nat)
    requires i < |history|
    ensures Relevant(history[i], LastWriteStep(history), TouchedNames(history)) <==> Tests(history, i)
  {
    var e, names := history[i], TouchedNames(history);
    LastWriteIsGreatest(history);
    if e.call.Bash? { LooksRelevantIff(history, e.call.command); }
    hide LastWriteStep, LooksRelevant, TouchedNames, Mentions, FileName, Changed;
  }

  lemma LooksRelevantIff(history: seq<Entry>, command: string)
    ensures LooksRelevant(command, TouchedNames(history))
            <==> || Mentions(command, "pytest")
                 || exists j: nat :: j < |history| && Changed(history[j]) && Mentions(command, FileName(history[j].call.path))
  {
    PytestIff(command);
    NamesIff(history, command);
    hide Contains, Lower, Mentions, FileName, Changed, TouchedNames;
  }

  lemma PytestIff(command: string)
    ensures Contains(Lower(command), "pytest") <==> Mentions(command, "pytest")
  {
    assert Lower("pytest") == "pytest";
    hide *;
    MentionsIff(command, "pytest");
  }

  lemma NamesIff(history: seq<Entry>, command: string)
    ensures var names := TouchedNames(history);
            (exists i :: 0 <= i < |names| && Contains(Lower(command), Lower(names[i])))
            <==> exists j: nat :: j < |history| && Changed(history[j]) && Mentions(command, FileName(history[j].call.path))
  {
    hide Contains, Lower, Mentions, FileName, TouchedNames;
    var names := TouchedNames(history);
    if i :| 0 <= i < |names| && Contains(Lower(command), Lower(names[i])) {
      MentionsIff(command, names[i]);
      assert names[i] in names;
      NamesAre(history, names[i]);
    }
    forall j: nat | j < |history| && ChangesNamed(history[j], command)
      ensures exists i :: 0 <= i < |names| && Contains(Lower(command), Lower(names[i]))
    {
      var name := FileName(history[j].call.path);
      NamesAre(history, name);
      MentionsIff(command, name);
    }
  }

  ghost predicate ChangesNamed(e: Entry, command: string) {
    Changed(e) && Mentions(command, FileName(e.call.path))
  }

  /** There is a verifying command iff some command tests, and it succeeded iff the last did. */
  lemma VerifyingIff(history: seq<Entry>)
    requires AnyChange(history)
    ensures VerifyingCommand(history).Some? <==> exists i: nat :: Tests(history, i)
    ensures VerifyingCommand(history).Some? && VerifyingCommand(history).value.ok <==> exists i: nat :: TestedAt(history, i)
  {
    var step, names := LastWriteStep(history), TouchedNames(history);
    LatestRelevantIs(history, step, names);
    forall i: nat | i < |history| ensures Relevant(history[i], step, names) <==> Tests(history, i) { RelevantIff(history, i); }
    AnyChangeIff(history);
    hide Relevant, LastWriteStep, TouchedNames, Changed, LatestRelevant, Exercises;
    assert VerifyingCommand(history) == LatestRelevant(history, step, names);
    hide VerifyingCommand;
    forall i: nat, k: nat | TestedAt(history, i) && Tests(history, k) ensures k <= i {}
    if VerifyingCommand(history).Some? {
      var i :| 0 <= i < |history| && history[i] == VerifyingCommand(history).value && Relevant(history[i], step, names)
               && forall j :: i < j < |history| ==> !Relevant(history[j], step, names);
      forall k: nat | i < k ensures !Tests(history, k) {}
      assert Tests(history, i);
      assert history[i].ok ==> TestedAt(history, i);
      forall k: nat | TestedAt(history, k) ensures k == i {
        assert Tests(history, k) && !(k < i);
      }
    } else {
      forall i: nat ensures !Tests(history, i) {}
    }
  }

  lemma AnyChangeIff(history: seq<Entry>)
    ensures AnyChange(history) <==> Writes(history)
  {
    forall i: nat | i < |history| ensures Modifies(history[i]) <==> Changed(history[i]) { ChangedIff(history[i]); }
    hide Modifies, Changed;
  }

  // ---- the files ----

  lemma {:induction false} LastModificationAt(history: seq<Entry>, i: nat)
    requires LastChange(history, i)
    ensures LastModification(history, history[i].call.path) == Some(history[i])
  {
    var n := |history| - 1;
    ChangedIff(history[n]);
    if i < n {
      assert !Touched(history, n, history[i].call.path);
      forall j: nat | i < j ensures !Touched(history[..n], j, history[i].call.path) {
        assert !Touched(history, j, history[i].call.path);
      }
      LastModificationAt(history[..n], i);
    }
  }

  lemma {:induction false} LastModificationFound(history: seq<Entry>, path: string) returns (i: nat)
    requires LastModification(history, path).Some?
    ensures LastChange(history, i) && history[i].call.path == path && LastModification(history, path) == Some(history[i])
  {
    var n := |history| - 1;
    ChangedIff(history[n]);
    if Modifies(history[n]) && history[n].call.path == path {
      i := n;
    } else {
      i := LastModificationFound(history[..n], path);
      forall j: nat | i < j ensures !Touched(history, j, path) {
        assert !Touched(history[..n], j, path);
      }
    }
  }

  lemma AsLeftIff(files: Workspace, e: Entry)
    requires Changed(e)
    ensures Modifies(e) && (Intact(files, e) <==> AsLeft(files, e))
  {
    if e.call.path in files && files[e.call.path].Regular? {
      var text := Universal(files[e.call.path].text);
      ContainsIff(text, if e.call.FileWrite? then e.call.content else e.call.newText);
    }
    hide Contains, Universal, Normalized, TextAt;
  }

  lemma AllAsLeft(files: Workspace, history: seq<Entry>)
    ensures AllIntact(files, history) <==> forall i: nat :: LastChange(history, i) ==> AsLeft(files, history[i])
  {
    hide LastModification, Intact, AsLeft, Touched, IntactAt;
    if AllIntact(files, history) {
      forall i: nat | LastChange(history, i) ensures AsLeft(files, history[i]) {
        assert IntactAt(files, LastModification(history, history[i].call.path));
        LeftAt(files, history, i);
      }
    }
    if forall i: nat :: LastChange(history, i) ==> AsLeft(files, history[i]) {
      forall path ensures IntactAt(files, LastModification(history, path)) {
        if LastModification(history, path).Some? {
          var i := LastModificationFound(history, path);
          LeftAt(files, history, i);
        } else {
          NothingLeft(files, LastModification(history, path));
        }
      }
    }
  }

  lemma LeftAt(files: Workspace, history: seq<Entry>, i: nat)
    requires LastChange(history, i)
    ensures IntactAt(files, LastModification(history, history[i].call.path)) <==> AsLeft(files, history[i])
  {
    LastModificationAt(history, i);
    AsLeftIff(files, history[i]);
    hide LastModification, Intact, AsLeft, Touched;
  }

  lemma NothingLeft(files: Workspace, last: Option<Entry>)
    requires last.None?
    ensures IntactAt(files, last)
  {
  }

  // ---- the verdict ----

  /** The verdict is passed iff every changed file is as its last change left it and, if there
      is any, the last relevant command that is no earlier than any change succeeded. */
  lemma PassedIff(files: Workspace, history: seq<Entry>)
    ensures var r := Execute(files, history, PlanOf(history));
            && (r.None? <==> exists i: nat :: LastChange(history, i) && history[i].call.path in files
                                              && files[history[i].call.path].Unreadable?)
            && (r.Some? ==>
                  && r.value.status != Incomplete
                  && (r.value.status == Passed <==>
                        && (forall i: nat :: LastChange(history, i) ==> AsLeft(files, history[i]))
                        && (AnyChange(history) ==> exists i: nat :: TestedAt(history, i)))
                  && (r.value.verifiedAfterLastWrite <==> !AnyChange(history) || exists i: nat :: Tests(history, i)))
  {
    VerdictIsSpecification(files, history);
    AllAsLeft(files, history);
    AnyChangeIff(history);
    if AnyChange(history) { VerifyingIff(history); }
    UnreadableAt(files, history);
    FlagIs(files, history);
    hide PlanOf, Execute, LastChange, AsLeft, AllIntact, AnyChange, Tests, TestedAt, VerifyingCommand, Writes, LastModification;
  }

  lemma FlagIs(files: Workspace, history: seq<Entry>)
    ensures var r := Execute(files, history, PlanOf(history));
            r.Some? ==> r.value.verifiedAfterLastWrite == (!Writes(history) || VerifyingCommand(history).Some?)
  {
    hide PlanOf, Writes, VerifyingCommand, Run;
  }

  lemma UnreadableAt(files: Workspace, history: seq<Entry>)
    ensures (exists p :: LastModification(history, p).Some? && p in files && files[p].Unreadable?)
            <==> exists i: nat :: LastChange(history, i) && history[i].call.path in files && files[history[i].call.path].Unreadable?
  {
    hide LastModification, Touched;
    forall p | LastModification(history, p).Some? && p in files && files[p].Unreadable?
      ensures exists i: nat :: LastChange(history, i) && history[i].call.path in files && files[history[i].call.path].Unreadable?
    {
      var i := LastModificationFound(history, p);
    }
    forall i: nat | LastChange(history, i) ensures LastModification(history, history[i].call.path).Some? {
      LastModificationAt(history, i);
    }
  }

  // ---- the claims ----

  /** What one claim about a changed file says, and whether it holds: the file is there, it
      contains what was written or edited in at that step, it is byte for byte what was written. */
  ghost predicate Settled(files: Workspace, e: Entry, id: ClaimId, holds: bool)
    requires Changed(e)
  {
    var path := e.call.path;
    match id
    case ExistsClaim(p) => p == path && holds == (path in files && (files[path].Regular? || files[path].isFile))
    case ContentClaim(p, step) =>
      && p == path && step == e.step && e.call.FileWrite?
      && holds == (path in files && files[path].Regular? && exists k: nat :: TextAt(Universal(files[path].text), k, e.call.content))
    case EditClaim(p, step) =>
      && p == path && step == e.step && e.call.FileEdit?
      && holds == (path in files && files[path].Regular? && exists k: nat :: TextAt(Universal(files[path].text), k, e.call.newText))
    case HashClaim(p, step) =>
      && p == path && step == e.step && e.call.FileWrite?
      && holds == (path in files && files[path] == Regular(Normalized(e.call.content)))
    case CommandClaim => false
  }

  function Unclaimed(files: Workspace, command: Option<Entry>, id: ClaimId, holds: bool): Check -> bool {
    (c: Check) => id in c.claims ==> Outcome(files, command, c.kind) != Some(holds)
  }

  lemma {:induction false} TallyMeans(files: Workspace, command: Option<Entry>, checks: seq<Check>, id: ClaimId, holds: bool)
    requires Run(files, command, checks).Some?
    ensures var t := Run(files, command, checks).value;
            id in (if holds then t.passed else t.failed) <==> !All(checks, Unclaimed(files, command, id, holds))
  {
    if checks != [] {
      var n := |checks| - 1;
      var front, last := checks[..n], checks[n];
      assert checks == front + [last];
      TallyMeans(files, command, front, id, holds);
      AllPush(front, last, Unclaimed(files, command, id, holds));
      hide Outcome, All;
      CountedHas(Run(files, command, front).value, last, Outcome(files, command, last.kind).value, id, holds);
      hide Counted;
    }
  }

  lemma CountedHas(t: Tally, c: Check, passed: bool, id: ClaimId, holds: bool)
    ensures var u := Counted(t, c, passed);
            id in (if holds then u.passed else u.failed)
            <==> id in (if holds then t.passed else t.failed) || (id in c.claims && passed == holds)
  {
  }

  lemma SettledIff(files: Workspace, command: Option<Entry>, e: Entry, id: ClaimId, holds: bool)
    requires Changed(e) && !(e.call.path in files && files[e.call.path].Unreadable?)
    ensures PathAll(Some(e), e.call.path, Unclaimed(files, command, id, holds)) <==> !Settled(files, e, id, holds)
  {
    if e.call.path in files && files[e.call.path].Regular? {
      ContainsIff(Universal(files[e.call.path].text), if e.call.FileWrite? then e.call.content else e.call.newText);
    }
    hide Contains, Universal, Normalized, TextAt;
  }

  lemma PathsClaim(files: Workspace, command: Option<Entry>, history: seq<Entry>, id: ClaimId, holds: bool)
    requires forall i: nat :: LastChange(history, i) ==> !(history[i].call.path in files && files[history[i].call.path].Unreadable?)
    ensures PathsAll(history, Unclaimed(files, command, id, holds))
            <==> forall i: nat :: LastChange(history, i) ==> !Settled(files, history[i], id, holds)
  {
    var ok := Unclaimed(files, command, id, holds);
    hide LastModification, Touched, PathAll, Settled, Unclaimed;
    forall i: nat | LastChange(history, i)
      ensures PathAll(LastModification(history, history[i].call.path), history[i].call.path, ok)
              <==> !Settled(files, history[i], id, holds)
    {
      LastModificationAt(history, i);
      SettledIff(files, command, history[i], id, holds);
    }
    forall p | !PathAll(LastModification(history, p), p, ok)
      ensures exists i: nat :: LastChange(history, i) && Settled(files, history[i], id, holds)
    {
      if LastModification(history, p).None? { NothingClaimed(LastModification(history, p), p, ok); }
      var i := LastModificationFound(history, p);
    }
  }

  lemma NothingClaimed(last: Option<Entry>, path: string, ok: Check -> bool)
    requires last.None?
    ensures PathAll(last, path, ok)
  {
  }

  /** Which claims a verdict reports as passed and as failed: those of the last change of every
      path, and that of the command if anything was changed; every claim is settled one way. */
  lemma ClaimsAre(files: Workspace, history: seq<Entry>, id: ClaimId, holds: bool)
    requires Execute(files, history, PlanOf(history)).Some?
    ensures var r := Execute(files, history, PlanOf(history)).value;
            id in (if holds then r.passed else r.failed)
            <==> || (exists i: nat :: LastChange(history, i) && Settled(files, history[i], id, holds))
                 || (id == CommandClaim && AnyChange(history) && holds == exists i: nat :: TestedAt(history, i))
    ensures Execute(files, history, PlanOf(history)).value.uncovered == {}
  {
    var command, checks := VerifyingCommand(history), PlanOf(history).checks;
    var ok := Unclaimed(files, command, id, holds);
    RanAll(files, history);
    TallyMeans(files, command, checks, id, holds);
    PlanAll(history, ok);
    PassedIff(files, history);
    CommandClaimed(files, history, id, holds);
    hide Run, Execute, PlanOf, VerifyingCommand, TestedAt, Tests, LastChange, All, PathsAll, AsLeft, AnyChange, Writes, Unclaimed, Settled;
    PathsClaimed(files, command, history, id, holds);
  }

  lemma PathsClaimed(files: Workspace, command: Option<Entry>, history: seq<Entry>, id: ClaimId, holds: bool)
    requires !exists i: nat :: LastChange(history, i) && history[i].call.path in files && files[history[i].call.path].Unreadable?
    ensures PathsAll(history, Unclaimed(files, command, id, holds))
            <==> !exists i: nat :: LastChange(history, i) && Settled(files, history[i], id, holds)
  {
    PathsClaim(files, command, history, id, holds);
    hide PathsAll, Settled, Unclaimed, Touched;
  }

  lemma RanAll(files: Workspace, history: seq<Entry>)
    requires Execute(files, history, PlanOf(history)).Some?
    ensures var t := Run(files, VerifyingCommand(history), PlanOf(history).checks);
            && t.Some?
            && Execute(files, history, PlanOf(history)).value.passed == t.value.passed
            && Execute(files, history, PlanOf(history)).value.failed == t.value.failed
            && Execute(files, history, PlanOf(history)).value.uncovered == {}
  {
    PlanClaims(history);
    RunMeans(files, VerifyingCommand(history), PlanOf(history).checks);
    CommandNeeded(files, history);
    hide PlanOf, VerifyingCommand, Run, All, Claims, Verified, Writes;
  }

  lemma CommandClaimed(files: Workspace, history: seq<Entry>, id: ClaimId, holds: bool)
    ensures Writes(history) && !Unclaimed(files, VerifyingCommand(history), id, holds)(Check(History, [CommandClaim]))
            <==> id == CommandClaim && AnyChange(history) && holds == exists i: nat :: TestedAt(history, i)
  {
    AnyChangeIff(history);
    if AnyChange(history) { VerifyingIff(history); }
    hide VerifyingCommand, TestedAt, Tests, AnyChange, Writes;
  }

  // ---- any plan ----

  /** One check on one file: a directory does not exist as a file, and what cannot be read as text
      raises when its content is asked for and has no hash that a text has. */
  lemma CheckOnFile(files: Workspace, command: Option<Entry>, path: string, text: string)
    ensures var (there, contains, hash) := (Outcome(files, command, FileExists(path)),
                                            Outcome(files, command, FileContains(path, text)),
                                            Outcome(files, command, FileHash(path, text)));
            if path !in files then there == contains == hash == Some(false)
            else
              match files[path]
              case Unreadable(isFile) => there == Some(isFile) && contains == None && hash == Some(false)
              case Regular(stored) =>
                && there == Some(true) && hash == Some(stored == text)
                && contains.Some? && (contains.value <==> Holds(stored, text))
  {
    if path in files && files[path].Regular? { HoldsIff(files[path].text, text); }
    hide Contains, Universal, Holds;
  }

  /** Read as text, the file contains the part. */
  ghost predicate Holds(stored: string, part: string) {
    exists k: nat :: TextAt(Universal(stored), k, part)
  }

  lemma HoldsIff(stored: string, part: string)
    ensures Contains(Universal(stored), part) <==> Holds(stored, part)
  {
    ContainsIff(Universal(stored), part);
  }

  lemma {:induction false} EvidenceOfChecks(files: Workspace, command: Option<Entry>, checks: seq<Check>)
    requires Run(files, command, checks).Some?
    ensures var e := Run(files, command, checks).value.evidence;
            |e| == |checks| && forall k :: 0 <= k < |checks| ==> Outcome(files, command, checks[k].kind) == Some(e[k])
  {
    if checks != [] {
      var n := |checks| - 1;
      EvidenceOfChecks(files, command, checks[..n]);
      assert forall k :: 0 <= k < n ==> checks[..n][k] == checks[k];
      hide Outcome;
    }
  }

  /** Whatever the plan: a failed claim fails it; without one, a claim that no check settled, or
      a change that no command tested, leaves it incomplete; and there is one piece of evidence
      for each check, in order. */
  lemma StatusOfAnyPlan(files: Workspace, history: seq<Entry>, plan: Plan)
    requires Execute(files, history, plan).Some?
    ensures var r := Execute(files, history, plan).value;
            var tested := AnyChange(history) ==> exists i: nat :: Tests(history, i);
            && (r.status == Failed <==> r.failed != {})
            && (r.status == Incomplete <==> r.failed == {} && (r.uncovered != {} || !tested))
            && (forall id :: id in r.uncovered <==> id in plan.claims && id !in r.passed && id !in r.failed)
            && |r.evidence| == |plan.checks|
            && forall k :: 0 <= k < |plan.checks| ==>
                 Outcome(files, VerifyingCommand(history), plan.checks[k].kind) == Some(r.evidence[k])
  {
    AnyChangeIff(history);
    if AnyChange(history) { VerifyingIff(history); }
    EvidenceOfChecks(files, VerifyingCommand(history), plan.checks);
    hide AnyChange, Tests, Writes, VerifyingCommand, Run, Outcome;
  }
}
