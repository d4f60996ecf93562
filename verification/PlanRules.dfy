// The order of a verification plan: which checks come where, and so what each piece of evidence
// is about.

module PlanRules {
  import opened Lists
  import opened Verify
  import opened VerifyRules

  ghost predicate Rising(at: seq<nat>) {
    forall a, b :: 0 <= a < b < |at| ==> at[a] < at[b]
  }

  /** The position at which a path was changed for the first time. */
  ghost predicate FirstChange(history: seq<Entry>, path: string, i: nat) {
    Touched(history, i, path) && forall j: nat :: j < i ==> !Touched(history, j, path)
  }

  /** The write since which a path has only been written whole: no edit after it, and before it
      none, or an edit as the last change. */
  ghost predicate WrittenSince(history: seq<Entry>, path: string, i: nat) {
    && Touched(history, i, path) && history[i].call.FileWrite?
    && (forall j: nat :: i < j && Touched(history, j, path) ==> history[j].call.FileWrite?)
    && (forall j: nat :: j < i && Touched(history, j, path) && (forall k: nat :: j < k < i ==> !Touched(history, k, path)) ==>
          history[j].call.FileEdit?)
  }

  lemma TouchedPush(history: seq<Entry>, e: Entry, path: string, j: nat)
    ensures Touched(history + [e], j, path) <==> Touched(history, j, path) || (j == |history| && Changed(e) && e.call.path == path)
    ensures Touched(history, j, path) ==> j < |history| && (history + [e])[j] == history[j] && Changed(history[j])
  {
  }

  lemma {:induction false} SeenIff(history: seq<Entry>, path: string)
    ensures path in DraftOf(history).seen <==> exists j: nat :: Touched(history, j, path)
  {
    if history != [] {
      var n := |history| - 1;
      SeenIff(history[..n], path);
      SeenPush(history[..n], history[n], path);
      assert history == history[..n] + [history[n]];
    }
  }

  lemma SeenPush(history: seq<Entry>, e: Entry, path: string)
    ensures (exists j: nat :: Touched(history + [e], j, path))
            <==> (exists j: nat :: Touched(history, j, path)) || (Modifies(e) && e.call.path == path)
  {
    ChangedIff(e);
    if j: nat :| Touched(history + [e], j, path) { TouchedPush(history, e, path, j); }
    if j: nat :| Touched(history, j, path) { TouchedPush(history, e, path, j); }
    if Modifies(e) && e.call.path == path { TouchedPush(history, e, path, |history|); }
  }

  // ---- keys of the tables ----

  function KeyIn(row: (string, Check)): string { row.0 }

  lemma KeysCons(row: (string, Check), t: Table)
    ensures Map([row] + t, KeyIn) == [row.0] + Map(t, KeyIn)
  {
  }

  lemma {:induction false} PutKeys(t: Table, path: string, c: Check)
    ensures Map(Put(t, path, c), KeyIn) == if path in Map(t, KeyIn) then Map(t, KeyIn) else Map(t, KeyIn) + [path]
  {
    var none: Table := [];
    KeysCons((path, c), none);
    if t != [] {
      assert t == [t[0]] + t[1..];
      KeysCons(t[0], t[1..]);
      if t[0].0 != path {
        PutKeys(t[1..], path, c);
        KeysCons(t[0], Put(t[1..], path, c));
        hide Put;
      } else {
        KeysCons((path, c), t[1..]);
      }
    }
  }

  /** Popping removes one row, if there is one. */
  lemma {:induction false} PopKeys(t: Table, path: string) returns (k: nat)
    ensures k <= |t| && (k < |t| ==> t[k].0 == path) && (k == |t| ==> path !in Map(t, KeyIn))
    ensures Pop(t, path) == if k < |t| then t[..k] + t[k + 1..] else t
  {
    k := 0;
    if t != [] && t[0].0 != path {
      var rest := PopKeys(t[1..], path);
      k := rest + 1;
      assert Pop(t, path) == [t[0]] + Pop(t[1..], path);
      hide Pop;
      PoppedLater(t, path, rest);
    }
  }

  lemma PoppedLater(t: Table, path: string, k: nat)
    requires t != [] && t[0].0 != path && k <= |t[1..]|
    ensures k < |t[1..]| ==> t[k + 1] == t[1..][k] && [t[0]] + (t[1..][..k] + t[1..][k + 1..]) == t[..k + 1] + t[k + 2..]
    ensures [t[0]] + t[1..] == t
    ensures path in Map(t, KeyIn) <==> path in Map(t[1..], KeyIn)
  {
    assert t == [t[0]] + t[1..];
    KeysCons(t[0], t[1..]);
    if k < |t[1..]| { ShiftRow(t[0], t[1..], k); }
  }

  lemma ShiftRow(row: (string, Check), t: Table, k: nat)
    requires k < |t|
    ensures [row] + (t[..k] + t[k + 1..]) == ([row] + t)[..k + 1] + ([row] + t)[k + 2..]
  {
  }

  // ---- the order of the paths ----

  /** The paths of a plan stand in the order in which they were first changed. */
  lemma {:induction false} SeenOrder(history: seq<Entry>) returns (at: seq<nat>)
    ensures var seen := DraftOf(history).seen;
            |at| == |seen| && Rising(at) && forall k :: 0 <= k < |seen| ==> FirstChange(history, seen[k], at[k])
  {
    at := [];
    if history != [] {
      var n := |history| - 1;
      var front, e := history[..n], history[n];
      assert history == front + [e];
      at := SeenOrder(front);
      var seen := DraftOf(front).seen;
      ChangedIff(e);
      forall k | 0 <= k < |seen| ensures FirstChange(history, seen[k], at[k]) && at[k] < n { FirstStays(front, e, seen[k], at[k]); }
      if Changed(e) && e.call.path !in seen {
        SeenIff(front, e.call.path);
        FirstNow(front, e);
        at := at + [n];
      }
      hide FirstChange, Changed, Noted;
      assert DraftOf(history) == Noted(DraftOf(front), e);
    }
  }

  lemma FirstStays(history: seq<Entry>, e: Entry, path: string, i: nat)
    requires FirstChange(history, path, i)
    ensures FirstChange(history + [e], path, i) && i < |history|
  {
    forall j: nat ensures Touched(history + [e], j, path) <==> Touched(history, j, path) || (j == |history| && Changed(e) && e.call.path == path) {
      TouchedPush(history, e, path, j);
    }
    TouchedPush(history, e, path, i);
    hide Touched;
  }

  lemma FirstNow(history: seq<Entry>, e: Entry)
    requires Changed(e) && !exists j: nat :: Touched(history, j, e.call.path)
    ensures FirstChange(history + [e], e.call.path, |history|)
  {
    forall j: nat | j < |history| ensures !Touched(history + [e], j, e.call.path) { TouchedPush(history, e, e.call.path, j); }
  }

  /** The content checks follow the paths in the same order. */
  lemma {:induction false} ContentsAlong(history: seq<Entry>)
    ensures Map(DraftOf(history).contents, KeyIn) == DraftOf(history).seen
  {
    if history != [] {
      var n := |history| - 1;
      ContentsAlong(history[..n]);
      var d, e := DraftOf(history[..n]), history[n];
      if Modifies(e) { PutKeys(d.contents, e.call.path, ContentCheck(e)); }
      hide Put, Modifies, ContentCheck;
    }
  }

  /** The hash checks stand in the order of the writes since which their paths are whole. */
  lemma {:induction false} HashesOrder(history: seq<Entry>) returns (at: seq<nat>)
    ensures var t := DraftOf(history).hashes;
            |at| == |t| && Rising(at) && forall k :: 0 <= k < |t| ==> WrittenSince(history, t[k].0, at[k])
  {
    at := [];
    if history != [] {
      var n := |history| - 1;
      var front, e := history[..n], history[n];
      assert history == front + [e];
      at := HashesOrder(front);
      ChangedIff(e);
      DraftOfOk(front);
      at := HashesNext(front, DraftOf(front), e, at);
    }
  }

  lemma HashesNext(history: seq<Entry>, d: Draft, e: Entry, was: seq<nat>) returns (at: seq<nat>)
    requires DraftOk(history, d) && |was| == |d.hashes| && Rising(was)
    requires forall k :: 0 <= k < |was| ==> WrittenSince(history, d.hashes[k].0, was[k])
    ensures var t := Noted(d, e).hashes;
            |at| == |t| && Rising(at) && forall k :: 0 <= k < |t| ==> WrittenSince(history + [e], t[k].0, at[k])
  {
    var t := d.hashes;
    at := was;
    if !Modifies(e) || e.call.FileWrite? {
      forall k | 0 <= k < |t| ensures WrittenSince(history + [e], t[k].0, was[k]) && was[k] < |history| { SinceStays(history, e, t[k].0, was[k]); }
      if Modifies(e) {
        at := HashWritten(history, d, e, was);
      }
    } else {
      at := HashEdited(history, d, e, was);
    }
  }

  lemma SinceStays(history: seq<Entry>, e: Entry, path: string, i: nat)
    requires WrittenSince(history, path, i) && (Changed(e) && e.call.path == path ==> e.call.FileWrite?)
    ensures WrittenSince(history + [e], path, i) && i < |history|
  {
    forall j: nat ensures Touched(history + [e], j, path) <==> Touched(history, j, path) || (j == |history| && Changed(e) && e.call.path == path)
                  ensures Touched(history, j, path) ==> j < |history| && (history + [e])[j] == history[j]
    {
      TouchedPush(history, e, path, j);
    }
  }

  lemma HashWritten(history: seq<Entry>, d: Draft, e: Entry, was: seq<nat>) returns (at: seq<nat>)
    requires DraftOk(history, d) && |was| == |d.hashes| && Rising(was) && Modifies(e) && e.call.FileWrite?
    requires forall k :: 0 <= k < |was| ==> WrittenSince(history + [e], d.hashes[k].0, was[k]) && was[k] < |history|
    ensures var t := Put(d.hashes, e.call.path, HashCheck(e));
            |at| == |t| && Rising(at) && forall k :: 0 <= k < |t| ==> WrittenSince(history + [e], t[k].0, at[k])
  {
    var t, keys := Put(d.hashes, e.call.path, HashCheck(e)), Map(d.hashes, KeyIn);
    PutKeys(d.hashes, e.call.path, HashCheck(e));
    at := was;
    if e.call.path !in keys {
      at := was + [|history|];
      SinceNow(history, d, e);
    }
    hide WrittenSince, Put, DraftOk;
    forall k | 0 <= k < |t| ensures WrittenSince(history + [e], t[k].0, at[k]) {
      assert Map(t, KeyIn)[k] == t[k].0;
      if k < |keys| { assert keys[k] == d.hashes[k].0; }
    }
  }

  lemma SinceNow(history: seq<Entry>, d: Draft, e: Entry)
    requires DraftOk(history, d) && Modifies(e) && e.call.FileWrite? && e.call.path !in Map(d.hashes, KeyIn)
    ensures WrittenSince(history + [e], e.call.path, |history|)
  {
    var path := e.call.path;
    var last := LastModification(history, path);
    NotHashed(history, d, path);
    forall j: nat ensures Touched(history + [e], j, path) <==> Touched(history, j, path) || (j == |history| && Changed(e) && e.call.path == path)
                  ensures Touched(history, j, path) ==> j < |history| && (history + [e])[j] == history[j]
    {
      TouchedPush(history, e, path, j);
    }
    hide DraftOk;
    forall j: nat | j < |history| && Touched(history, j, path) && (forall k: nat :: j < k < |history| ==> !Touched(history + [e], k, path))
      ensures history[j].call.FileEdit?
    {
      assert LastChange(history, j);
      LastModificationAt(history, j);
    }
  }

  lemma HashedWhenWritten(history: seq<Entry>, d: Draft, path: string)
    requires DraftOk(history, d)
    requires LastModification(history, path).Some? && LastModification(history, path).value.call.FileWrite?
    ensures path in Map(d.hashes, KeyIn)
  {
    var last := LastModification(history, path);
    LastModificationIs(history, path);
    assert (path, HashCheck(last.value)) in d.hashes;
    var k :| 0 <= k < |d.hashes| && d.hashes[k] == (path, HashCheck(last.value));
    assert Map(d.hashes, KeyIn)[k] == path;
  }

  lemma NotHashed(history: seq<Entry>, d: Draft, path: string)
    requires DraftOk(history, d) && path !in Map(d.hashes, KeyIn)
    ensures LastModification(history, path).Some? ==> !LastModification(history, path).value.call.FileWrite?
  {
    var last := LastModification(history, path);
    if last.Some? && last.value.call.FileWrite? { HashedWhenWritten(history, d, path); }
  }

  lemma HashEdited(history: seq<Entry>, d: Draft, e: Entry, was: seq<nat>) returns (at: seq<nat>)
    requires DraftOk(history, d) && |was| == |d.hashes| && Rising(was) && Modifies(e) && !e.call.FileWrite?
    requires forall k :: 0 <= k < |was| ==> WrittenSince(history, d.hashes[k].0, was[k])
    ensures var t := Pop(d.hashes, e.call.path);
            |at| == |t| && Rising(at) && forall k :: 0 <= k < |t| ==> WrittenSince(history + [e], t[k].0, at[k])
  {
    hide DraftOk, Rising, WrittenSince, Pop, Keyed, Touched;
    ChangedIff(e);
    KeysUnique(history, d);
    var i := PopKeys(d.hashes, e.call.path);
    at := WithoutRow(history, d.hashes, e, was, i);
  }

  lemma KeysUnique(history: seq<Entry>, d: Draft)
    requires DraftOk(history, d)
    ensures Keyed(d.hashes)
  {
  }

  lemma {:induction false} OneRow(t: Table, k: nat, m: nat)
    requires Keyed(t) && k < m < |t|
    ensures t[k].0 != t[m].0
  {
    if k == 0 {
      assert t[m] == t[1..][m - 1] && t[m] == (t[m].0, t[m].1);
    } else {
      OneRow(t[1..], k - 1, m - 1);
    }
  }

  lemma WithoutRow(history: seq<Entry>, h: Table, e: Entry, was: seq<nat>, i: nat) returns (at: seq<nat>)
    requires Keyed(h) && |was| == |h| && Rising(was) && i <= |h| && Changed(e)
    requires (i < |h| ==> h[i].0 == e.call.path) && (i == |h| ==> e.call.path !in Map(h, KeyIn))
    requires forall k :: 0 <= k < |was| ==> WrittenSince(history, h[k].0, was[k])
    ensures var t := if i < |h| then h[..i] + h[i + 1..] else h;
            |at| == |t| && Rising(at) && forall k :: 0 <= k < |t| ==> WrittenSince(history + [e], t[k].0, at[k])
  {
    hide WrittenSince, Keyed, Changed;
    at := if i < |h| then was[..i] + was[i + 1..] else was;
    forall m | 0 <= m < |h| && m != i ensures WrittenSince(history + [e], h[m].0, was[m]) {
      if i == |h| { assert Map(h, KeyIn)[m] == h[m].0; } else if m < i { OneRow(h, m, i); } else { OneRow(h, i, m); }
      SinceStays(history, e, h[m].0, was[m]);
    }
  }

  // ---- the plan ----

  /** A plan, check by check: that each changed path is there, in the order of first changes; what
      each contains, in the same order; the hashes of those that were last written whole, in the
      order of the writes since which they are whole; and the command, if anything was changed. */
  lemma PlanIs(history: seq<Entry>) returns (paths: seq<string>, first: seq<nat>, hashed: seq<string>, since: seq<nat>)
    ensures Sections(PlanOf(history).checks, paths, hashed)
    ensures |first| == |paths| && Rising(first) && (forall k :: 0 <= k < |paths| ==> FirstChange(history, paths[k], first[k]))
    ensures |since| == |hashed| && Rising(since) && (forall k :: 0 <= k < |hashed| ==> WrittenSince(history, hashed[k], since[k]))
    ensures forall p :: p in paths <==> exists i: nat :: Touched(history, i, p)
  {
    hide DraftOk, DraftOf, FirstChange, WrittenSince, Touched, Rising, PlanOf, Sections;
    var d := DraftOf(history);
    paths, hashed := d.seen, Map(d.hashes, KeyIn);
    first := SeenOrder(history);
    since := HashesOrder(history);
    forall p ensures p in paths <==> exists i: nat :: Touched(history, i, p) { SeenIff(history, p); }
    PlanSections(history);
  }

  /** Where the checks of each sort are. */
  ghost predicate Sections(checks: seq<Check>, paths: seq<string>, hashed: seq<string>) {
    var n := |paths|;
    && |checks| == 2 * n + |hashed| + (if n == 0 then 0 else 1)
    && (forall k :: 0 <= k < n ==> checks[k].kind == FileExists(paths[k]))
    && (forall k :: 0 <= k < n ==> checks[n + k].kind.FileContains? && checks[n + k].kind.path == paths[k])
    && (forall k :: 0 <= k < |hashed| ==> checks[2 * n + k].kind.FileHash? && checks[2 * n + k].kind.path == hashed[k])
    && (n > 0 ==> checks[2 * n + |hashed|] == Check(History, [CommandClaim]))
  }

  lemma PlanSections(history: seq<Entry>)
    ensures Sections(PlanOf(history).checks, DraftOf(history).seen, Map(DraftOf(history).hashes, KeyIn))
  {
    var d := DraftOf(history);
    ContentsAlong(history);
    DraftOfOk(history);
    RowKinds(history, d);
    hide DraftOk, DraftOf, Claims, Sections;
    forall k | 0 <= k < |d.seen| ensures d.contents[k].0 == d.seen[k] { assert Map(d.contents, KeyIn)[k] == d.seen[k]; }
    assert |d.contents| == |Map(d.contents, KeyIn)|;
    InSections(Map(d.seen, ExistsCheck), Map(d.contents, CheckIn), Map(d.hashes, CheckIn), CommandChecks(d.seen),
               d.seen, Map(d.hashes, KeyIn));
  }

  lemma InSections(a: seq<Check>, b: seq<Check>, c: seq<Check>, d: seq<Check>, paths: seq<string>, hashed: seq<string>)
    requires |a| == |b| == |paths| && |c| == |hashed| && d == CommandChecks(paths)
    requires forall k :: 0 <= k < |paths| ==> a[k].kind == FileExists(paths[k])
    requires forall k :: 0 <= k < |paths| ==> b[k].kind.FileContains? && b[k].kind.path == paths[k]
    requires forall k :: 0 <= k < |hashed| ==> c[k].kind.FileHash? && c[k].kind.path == hashed[k]
    ensures Sections(a + b + c + d, paths, hashed)
  {
    var all := a + b + c + d;
    forall k | 0 <= k < |a| ensures all[k] == a[k] && all[|a| + k] == b[k] { Placed(a, b, c, d, k); }
    forall k | 0 <= k < |c| ensures all[2 * |a| + k] == c[k] { Placed(a, b, c, d, k); }
    forall k | 0 <= k < |d| ensures all[2 * |a| + |c| + k] == d[k] { Placed(a, b, c, d, k); }
    if paths != [] { assert all[2 * |a| + |c| + 0] == d[0]; }
  }

  lemma Placed(a: seq<Check>, b: seq<Check>, c: seq<Check>, d: seq<Check>, k: nat)
    requires |a| == |b|
    ensures var all := a + b + c + d;
            && (k < |a| ==> all[k] == a[k] && all[|a| + k] == b[k])
            && (k < |c| ==> all[2 * |a| + k] == c[k])
            && (k < |d| ==> all[2 * |a| + |c| + k] == d[k])
  {
  }

  lemma RowKinds(history: seq<Entry>, d: Draft)
    requires DraftOk(history, d)
    ensures forall k :: 0 <= k < |d.contents| ==> d.contents[k].1.kind.FileContains? && d.contents[k].1.kind.path == d.contents[k].0
    ensures forall k :: 0 <= k < |d.hashes| ==> d.hashes[k].1.kind.FileHash? && d.hashes[k].1.kind.path == d.hashes[k].0
  {
    forall k | 0 <= k < |d.contents| ensures d.contents[k].1.kind.FileContains? && d.contents[k].1.kind.path == d.contents[k].0 {
      var (p, c) := d.contents[k];
      assert (p, c) == d.contents[k] && (p, c) in d.contents;
      LastModificationIs(history, p);
    }
    forall k | 0 <= k < |d.hashes| ensures d.hashes[k].1.kind.FileHash? && d.hashes[k].1.kind.path == d.hashes[k].0 {
      var (p, c) := d.hashes[k];
      assert (p, c) == d.hashes[k] && (p, c) in d.hashes;
      LastModificationIs(history, p);
    }
  }
}
