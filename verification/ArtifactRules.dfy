// What creating, revising and reading an artifact do in a consistent store: which requests are
// refused and why, and every field of what is written.

module ArtifactRules {
  import opened Common
  import opened ArtifactStore

  /** 1 to 200 letters, digits, and the four marks that identifiers may contain. */
  predicate WellFormedId(s: string) {
    && 1 <= |s| <= 200
    && forall c :: c in s ==>
         || 'a' <= c <= 'z' || 'A' <= c <= 'Z' || '0' <= c <= '9'
         || c == '_' || c == '.' || c == ':' || c == '-'
  }

  lemma BoundedIff(s: string)
    ensures Bounded(s) <==> WellFormedId(s)
  {
    if Bounded(s) {
      forall c | c in s
        ensures 'a' <= c <= 'z' || 'A' <= c <= 'Z' || '0' <= c <= '9' || c == '_' || c == '.' || c == ':' || c == '-'
      {
        var i :| 0 <= i < |s| && s[i] == c;
        assert IdentifierChar(s[i]);
      }
    }
    if WellFormedId(s) {
      forall i | 0 <= i < |s| ensures IdentifierChar(s[i]) { assert s[i] in s; }
    }
  }

  /** A new artifact: its record, its first revision, the row under its key and its blob. */
  lemma CreateIs(s: Store, op: Op)
    requires StoreOk(s) && op.Create? && op.request.CreateRequest?
    ensures var ((t, r), key, content) := (Apply(s, op), "create:" + op.key, op.request.content);
            if !WellFormedId(op.key) then t == s && r == Failed(InvalidRequest)
            else if |content| > 16777216 then t == s && r == Failed(Capacity)
            else if !op.valid then t == s && r == Failed(InvalidRequest)
            else if key in s.keys && s.keys[key].digest != op.request then t == s && r == Failed(Conflict)
            else if key in s.keys then
              r.Done? && !r.value.created && t.artifacts == s.artifacts && t.revisions == s.revisions && t.keys == s.keys
            else
              && var first := Revision(op.revisionId, op.artifactId, 1, content, |content|, op.request.details, op.now);
              && r == Done(Outcome(op.artifactId, first, true))
              && t == Store(s.artifacts[op.artifactId := Artifact(op.artifactId, 1, op.request.details, op.now, op.now)],
                            s.revisions + [first], s.keys[key := KeyRow(op.request, op.artifactId)], s.blobs[content := content])
  {
    BoundedIff(op.key);
    EnsureBlobOk(s, op.request.content);
    BlobIs(s, op.request.content);
    hide Bounded, WellFormedId, Contiguous, UniqueIds, Grows;
    var key := "create:" + op.key;
    if key in s.keys && s.keys[key].digest == op.request {
      CreatedBefore(s, op.request, s.keys[key]);
    }
  }

  lemma BlobIs(s: Store, content: Content)
    requires StoreOk(s)
    ensures EnsureBlob(s, content) == Done(s.(blobs := s.blobs[content := content]))
  {
    hide KeyOk, Contiguous, UniqueIds;
    if content in s.blobs { assert s.blobs[content := content] == s.blobs; }
  }

  lemma CreatedBefore(s: Store, request: Request, row: KeyRow)
    requires KeyOk(s, row) && row.digest == request && request.CreateRequest? && Contiguous(s)
    ensures row.resultId in s.artifacts && FindRevision(s.revisions, row.resultId, 1).Some?
  {
    var r :| r in s.revisions && r.artifact == row.resultId && r.number == 1 && r.hash == request.content;
    var k :| 0 <= k < |s.revisions| && s.revisions[k] == r;
    hide Contiguous;
    FindSome(s.revisions, row.resultId, 1, k);
  }

  lemma {:induction false} FindSome(rs: seq<Revision>, artifact: string, number: nat, k: nat)
    requires k < |rs| && rs[k].artifact == artifact && rs[k].number == number
    ensures FindRevision(rs, artifact, number).Some?
    ensures var r := FindRevision(rs, artifact, number).value; r in rs && r.artifact == artifact && r.number == number
  {
    if !(rs[0].artifact == artifact && rs[0].number == number) { FindSome(rs[1..], artifact, number, k - 1); }
  }

  lemma {:induction false} FindNone(rs: seq<Revision>, artifact: string, number: nat)
    requires forall k :: 0 <= k < |rs| ==> !(rs[k].artifact == artifact && rs[k].number == number)
    ensures FindRevision(rs, artifact, number).None?
  {
    if rs != [] { FindNone(rs[1..], artifact, number); }
  }

  lemma {:induction false} FindIdSome(rs: seq<Revision>, id: string, k: nat)
    requires k < |rs| && rs[k].id == id
    ensures FindById(rs, id).Some? && FindById(rs, id).value in rs && FindById(rs, id).value.id == id
  {
    if rs[0].id != id { FindIdSome(rs[1..], id, k - 1); }
  }

  /** A new revision: the next number, the record's latest number and time of change, the row
      under the key of that artifact and its blob. */
  lemma ReviseIs(s: Store, op: Op)
    requires StoreOk(s) && op.Revise? && op.request.ReviseRequest?
    ensures var ((t, r), id, content) := (Apply(s, op), op.request.artifact, op.request.content);
            var key := "revise:" + id + ":" + op.key;
            if !WellFormedId(id) || !WellFormedId(op.key) then t == s && r == Failed(InvalidRequest)
            else if |content| > 16777216 then t == s && r == Failed(Capacity)
            else if !op.valid then t == s && r == Failed(InvalidRequest)
            else if key in s.keys && s.keys[key].digest != op.request then t == s && r == Failed(Conflict)
            else if key in s.keys then
              r.Done? && !r.value.created && t.artifacts == s.artifacts && t.revisions == s.revisions && t.keys == s.keys
            else if id !in s.artifacts then t == s && r == Failed(NotFound)
            else
              && var was := s.artifacts[id];
              && var next := Revision(op.revisionId, id, was.latest + 1, content, |content|, op.request.details, op.now);
              && r == Done(Outcome(id, next, true))
              && t == Store(s.artifacts[id := Artifact(was.id, was.latest + 1, was.details, was.createdAt, op.now)],
                            s.revisions + [next], s.keys[key := KeyRow(op.request, op.revisionId)], s.blobs[content := content])
  {
    BoundedIff(op.request.artifact);
    BoundedIff(op.key);
    EnsureBlobOk(s, op.request.content);
    BlobIs(s, op.request.content);
    hide Bounded, WellFormedId, Contiguous, UniqueIds, Grows;
    var key := "revise:" + op.request.artifact + ":" + op.key;
    if key in s.keys && s.keys[key].digest == op.request {
      RevisedBefore(s, op.request, s.keys[key]);
    }
  }

  lemma RevisedBefore(s: Store, request: Request, row: KeyRow)
    requires KeyOk(s, row) && row.digest == request && request.ReviseRequest?
    ensures FindById(s.revisions, row.resultId).Some?
  {
    var r :| r in s.revisions && r.id == row.resultId && r.artifact == request.artifact && r.hash == request.content;
    var k :| 0 <= k < |s.revisions| && s.revisions[k] == r;
    FindIdSome(s.revisions, row.resultId, k);
  }

  /** Reading in a consistent store fails only for an id that is none, an artifact that is not
      there, and a number beyond the latest; no number, and zero, mean the latest; and what is
      read is what the revision of that number was made of. */
  lemma ReadIs(s: Store, id: string, number: Option<nat>)
    requires StoreOk(s)
    ensures var r := ReadRevision(s, id, number);
            if !WellFormedId(id) then r == Failed(InvalidRequest)
            else if id !in s.artifacts then r == Failed(NotFound)
            else
              && var n := if number.None? || number == Some(0) then s.artifacts[id].latest else number.value;
              && if n > s.artifacts[id].latest then r == Failed(NotFound)
                 else exists k :: 0 <= k < |s.revisions| && s.revisions[k].artifact == id && s.revisions[k].number == n
                                  && r == Done(s.revisions[k].hash)
  {
    BoundedIff(id);
    hide Bounded, WellFormedId, KeyOk, UniqueIds;
    if id in s.artifacts {
      var n := if number.None? || number == Some(0) then s.artifacts[id].latest else number.value;
      if n > s.artifacts[id].latest {
        forall k | 0 <= k < |s.revisions| ensures !(s.revisions[k].artifact == id && s.revisions[k].number == n) {
          assert s.revisions[k] in s.revisions;
        }
        FindNone(s.revisions, id, n);
      } else {
        assert HasRevision(s, id, n);
        var k :| 0 <= k < |s.revisions| && s.revisions[k].artifact == id && s.revisions[k].number == n;
        FindSome(s.revisions, id, n, k);
        hide Contiguous;
        Readable(s, FindRevision(s.revisions, id, n).value);
      }
    }
  }

  lemma Readable(s: Store, r: Revision)
    requires Stored(s) && r in s.revisions
    ensures r.hash in s.blobs && s.blobs[r.hash] == r.hash && r.byteLength == |r.hash|
    ensures exists k :: 0 <= k < |s.revisions| && s.revisions[k] == r
  {
  }

  /** The keys of creations and revisions never meet; those of two revisions meet iff the two
      artifact ids and keys, written with a colon between them, are one text. */
  lemma KeysApart(a: string, k: string, b: string, l: string)
    ensures CreateKey(k) != ReviseKey(b, l)
    ensures CreateKey(k) == CreateKey(l) <==> k == l
    ensures ReviseKey(a, k) == ReviseKey(b, l) <==> a + ":" + k == b + ":" + l
    ensures ':' !in a && ':' !in b ==> (ReviseKey(a, k) == ReviseKey(b, l) <==> a == b && k == l)
  {
    assert CreateKey(k)[0] == 'c' && ReviseKey(b, l)[0] == 'r';
    assert CreateKey(k)[7..] == k && CreateKey(l)[7..] == l;
    assert ReviseKey(a, k) == "revise:" + (a + ":" + k) && ReviseKey(b, l) == "revise:" + (b + ":" + l);
    assert ReviseKey(a, k)[7..] == a + ":" + k && ReviseKey(b, l)[7..] == b + ":" + l;
    if ':' !in a && ':' !in b && a + ":" + k == b + ":" + l { FirstColon(a, k, b, l); }
  }

  lemma FirstColon(a: string, k: string, b: string, l: string)
    requires ':' !in a && ':' !in b && a + ":" + k == b + ":" + l
    ensures a == b && k == l
  {
    var t := a + ":" + k;
    assert t[|a|] == ':' && t == b + ":" + l && t[|b|] == ':';
    forall i | 0 <= i < |a| ensures t[i] != ':' { assert t[i] == a[i]; }
    forall i | 0 <= i < |b| ensures t[i] != ':' { assert t[i] == b[i]; }
    assert a == t[..|a|] && b == t[..|b|];
    assert k == t[|a| + 1..] && l == t[|b| + 1..];
  }

  /** With a colon in an id the keys of two artifacts can meet; the ids that the store generates
      have none. */
  lemma ColonsMeet()
    ensures ReviseKey("a:b", "c") == ReviseKey("a", "b:c")
  {
  }
}
