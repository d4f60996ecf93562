// The artifact store: append-only revisions over content-addressed blobs, with idempotent
// creation and revision. Digests are modelled as injective: a content hash is the content it
// was taken of, a request digest the request.

module ArtifactStore {
  import opened Common
  import opened Lists
  import opened Ordering

  type Content = seq<bv8>

  /** A request: its validated fields, and what its digest covers. */
  datatype Request =
    | CreateRequest(details: string, content: Content)
    | ReviseRequest(artifact: string, details: string, content: Content)

  datatype Artifact = Artifact(id: string, latest: nat, details: string, createdAt: Time, updatedAt: Time)

  datatype Revision = Revision(
    id: string, artifact: string, number: nat, hash: Content, byteLength: nat, details: string, createdAt: Time)

  datatype KeyRow = KeyRow(digest: Request, resultId: string)

  datatype Store = Store(
    artifacts: map<string, Artifact>, revisions: seq<Revision>, keys: map<string, KeyRow>, blobs: map<Content, Content>)

  datatype ArtifactError = InvalidRequest | Capacity | NotFound | Conflict | Integrity

  datatype Answer<+T> = Done(value: T) | Failed(error: ArtifactError)

  const MAX_BYTES: nat := 16777216

  predicate IdentifierChar(c: char) {
    'A' <= c <= 'Z' || 'a' <= c <= 'z' || '0' <= c <= '9' || c in {'_', '.', ':', '-'}
  }

  predicate Bounded(s: string) {
    s != "" && |s| <= 200 && forall i :: 0 <= i < |s| ==> IdentifierChar(s[i])
  }

  function CreateKey(key: string): string { "create:" + key }

  function ReviseKey(artifact: string, key: string): string { "revise:" + artifact + ":" + key }

  // ---- rows ----

  function OfArtifact(id: string): Revision -> bool {
    (r: Revision) => r.artifact == id
  }

  predicate LowerNumber(a: Revision, b: Revision) {
    a.number < b.number
  }

  /** The revisions of an artifact, by number. */
  function RevisionsOf(s: Store, id: string): seq<Revision> {
    Sort(Filter(s.revisions, OfArtifact(id)), LowerNumber)
  }

  function FindRevision(rs: seq<Revision>, artifact: string, number: nat): Option<Revision> {
    if rs == [] then None
    else if rs[0].artifact == artifact && rs[0].number == number then Some(rs[0])
    else FindRevision(rs[1..], artifact, number)
  }

  function FindById(rs: seq<Revision>, id: string): Option<Revision> {
    if rs == [] then None else if rs[0].id == id then Some(rs[0]) else FindById(rs[1..], id)
  }

  /** _ensure_blob: writes the blob unless it is there, and checks what is there. */
  function EnsureBlob(s: Store, content: Content): Answer<Store> {
    if content !in s.blobs then Done(s.(blobs := s.blobs[content := content]))
    else if s.blobs[content] == content then Done(s) else Failed(Integrity)
  }

  // ---- operations ----

  datatype Op =
    | Create(key: string, request: Request, valid: bool, artifactId: string, revisionId: string, now: Time)
    | Revise(key: string, request: Request, valid: bool, revisionId: string, now: Time)
    | Aborted(content: Content)

  datatype Outcome = Outcome(artifact: string, revision: Revision, created: bool)

  function FirstRevision(op: Op): Revision
    requires op.Create?
  {
    Revision(op.revisionId, op.artifactId, 1, op.request.content, |op.request.content|, op.request.details, op.now)
  }

  function Created(s: Store, op: Op): Store
    requires op.Create?
  {
    s.(artifacts := s.artifacts[op.artifactId := Artifact(op.artifactId, 1, op.request.details, op.now, op.now)],
       revisions := s.revisions + [FirstRevision(op)],
       keys := s.keys[CreateKey(op.key) := KeyRow(op.request, op.artifactId)])
  }

  function CreateArtifact(s: Store, op: Op): (Store, Answer<Outcome>)
    requires op.Create? && op.request.CreateRequest?
  {
    if !Bounded(op.key) then (s, Failed(InvalidRequest))
    else if |op.request.content| > MAX_BYTES then (s, Failed(Capacity))
    else if !op.valid then (s, Failed(InvalidRequest))
    else if CreateKey(op.key) in s.keys then
      var row := s.keys[CreateKey(op.key)];
      if row.digest != op.request then (s, Failed(Conflict))
      else
        match EnsureBlob(s, op.request.content)
        case Failed(e) => (s, Failed(e))
        case Done(t) =>
          if row.resultId !in s.artifacts then (t, Failed(NotFound))
          else
            match FindRevision(s.revisions, row.resultId, 1)
            case None => (t, Failed(NotFound))
            case Some(r) => (t, Done(Outcome(row.resultId, r, false)))
    else
      match EnsureBlob(s, op.request.content)
      case Failed(e) => (s, Failed(e))
      case Done(t) => (Created(t, op), Done(Outcome(op.artifactId, FirstRevision(op), true)))
  }

  function NextRevision(s: Store, op: Op): Revision
    requires op.Revise? && op.request.ReviseRequest? && op.request.artifact in s.artifacts
  {
    Revision(op.revisionId, op.request.artifact, s.artifacts[op.request.artifact].latest + 1, op.request.content,
             |op.request.content|, op.request.details, op.now)
  }

  function Revised(s: Store, op: Op): Store
    requires op.Revise? && op.request.ReviseRequest? && op.request.artifact in s.artifacts
  {
    var a := s.artifacts[op.request.artifact];
    s.(artifacts := s.artifacts[op.request.artifact := a.(latest := a.latest + 1, updatedAt := op.now)],
       revisions := s.revisions + [NextRevision(s, op)],
       keys := s.keys[ReviseKey(op.request.artifact, op.key) := KeyRow(op.request, op.revisionId)])
  }

  function AddRevision(s: Store, op: Op): (Store, Answer<Outcome>)
    requires op.Revise? && op.request.ReviseRequest?
  {
    if !Bounded(op.request.artifact) || !Bounded(op.key) then (s, Failed(InvalidRequest))
    else if |op.request.content| > MAX_BYTES then (s, Failed(Capacity))
    else if !op.valid then (s, Failed(InvalidRequest))
    else if ReviseKey(op.request.artifact, op.key) in s.keys then
      var row := s.keys[ReviseKey(op.request.artifact, op.key)];
      if row.digest != op.request then (s, Failed(Conflict))
      else
        match EnsureBlob(s, op.request.content)
        case Failed(e) => (s, Failed(e))
        case Done(t) =>
          match FindById(s.revisions, row.resultId)
          case None => (t, Failed(Integrity))
          case Some(r) => (t, Done(Outcome(op.request.artifact, r, false)))
    else if op.request.artifact !in s.artifacts then (s, Failed(NotFound))
    else
      match EnsureBlob(s, op.request.content)
      case Failed(e) => (s, Failed(e))
      case Done(t) => (Revised(t, op), Done(Outcome(op.request.artifact, NextRevision(s, op), true)))
  }

  predicate WellTyped(op: Op) {
    match op
    case Create(_, r, _, _, _, _) => r.CreateRequest?
    case Revise(_, r, _, _, _) => r.ReviseRequest?
    case Aborted(_) => true
  }

  /** One transaction; an aborted one may leave its blob behind and nothing else. */
  function Apply(s: Store, op: Op): (Store, Answer<Outcome>)
    requires WellTyped(op)
  {
    match op
    case Create(_, _, _, _, _, _) => CreateArtifact(s, op)
    case Revise(_, _, _, _, _) => AddRevision(s, op)
    case Aborted(content) => (if EnsureBlob(s, content).Done? then EnsureBlob(s, content).value else s, Failed(Integrity))
  }

  // ---- reads ----

  /** get_bundle: the checks of ArtifactBundle on the artifact and its ordered revisions. */
  function GetBundle(s: Store, id: string, max: Option<nat>): Answer<(Artifact, seq<Revision>)> {
    if !Bounded(id) || max == Some(0) then Failed(InvalidRequest)
    else if id !in s.artifacts then Failed(NotFound)
    else
      var rows := RevisionsOf(s, id);
      if max.Some? && |rows| > max.value then Failed(Capacity)
      else if !BundleOk(s.artifacts[id], rows) then Failed(Integrity)
      else Done((s.artifacts[id], rows))
  }

  predicate BundleOk(a: Artifact, rows: seq<Revision>) {
    && (forall i :: 0 <= i < |rows| ==> rows[i].number == i + 1)
    && (forall i :: 0 <= i < |rows| ==> rows[i].artifact == a.id)
    && a.latest == |rows|
  }

  /** read_revision: number 0 or none means the latest. */
  function ReadRevision(s: Store, id: string, number: Option<nat>): Answer<Content> {
    if !Bounded(id) then Failed(InvalidRequest)
    else if id !in s.artifacts then Failed(NotFound)
    else
      var n := if number.None? || number.value == 0 then s.artifacts[id].latest else number.value;
      match FindRevision(s.revisions, id, n)
      case None => Failed(NotFound)
      case Some(r) =>
        if r.hash !in s.blobs then Failed(Integrity)
        else if |s.blobs[r.hash]| != r.byteLength || s.blobs[r.hash] != r.hash then Failed(Integrity)
        else Done(s.blobs[r.hash])
  }

  // ---- the invariant ----

  /** Every artifact has the revisions 1 .. latest, one of each. */
  ghost predicate Contiguous(s: Store) {
    && (forall r :: r in s.revisions ==> r.artifact in s.artifacts && 1 <= r.number <= s.artifacts[r.artifact].latest)
    && (forall i, j :: 0 <= i < j < |s.revisions| ==>
          s.revisions[i].artifact == s.revisions[j].artifact ==> s.revisions[i].number < s.revisions[j].number)
    && (forall id, n :: id in s.artifacts && 1 <= n <= s.artifacts[id].latest ==> HasRevision(s, id, n))
    && (forall id :: id in s.artifacts ==> s.artifacts[id].id == id && 1 <= s.artifacts[id].latest)
  }

  ghost predicate HasRevision(s: Store, id: string, n: nat) {
    exists k :: 0 <= k < |s.revisions| && s.revisions[k].artifact == id && s.revisions[k].number == n
  }

  /** Every blob is what its hash says, and every revision has one of its length. */
  ghost predicate Stored(s: Store) {
    && (forall h :: h in s.blobs ==> s.blobs[h] == h)
    && (forall r :: r in s.revisions ==> r.hash in s.blobs && r.byteLength == |r.hash|)
  }

  ghost predicate UniqueIds(rs: seq<Revision>) {
    forall i, j :: 0 <= i < j < |rs| ==> rs[i].id != rs[j].id
  }

  /** An idempotency row names the result of the request it was written for. */
  ghost predicate KeyOk(s: Store, row: KeyRow) {
    match row.digest
    case CreateRequest(_, content) =>
      row.resultId in s.artifacts
      && exists r :: r in s.revisions && r.artifact == row.resultId && r.number == 1 && r.hash == content
    case ReviseRequest(artifact, _, content) =>
      exists r :: r in s.revisions && r.id == row.resultId && r.artifact == artifact && r.hash == content
  }

  ghost predicate StoreOk(s: Store) {
    && Contiguous(s) && Stored(s) && UniqueIds(s.revisions)
    && forall k :: k in s.keys ==> KeyOk(s, s.keys[k])
  }

  /** Generated ids are new. */
  predicate FreshIds(s: Store, op: Op) {
    match op
    case Create(_, _, _, a, r, _) => a !in s.artifacts && forall k :: 0 <= k < |s.revisions| ==> s.revisions[k].id != r
    case Revise(_, _, _, r, _) => forall k :: 0 <= k < |s.revisions| ==> s.revisions[k].id != r
    case Aborted(_) => true
  }

  // ---- what every transaction keeps ----

  /** Nothing recorded is ever rewritten. */
  ghost predicate Grows(s: Store, t: Store) {
    && s.revisions <= t.revisions
    && (forall h :: h in s.blobs ==> h in t.blobs && t.blobs[h] == s.blobs[h])
    && (forall k :: k in s.keys ==> k in t.keys && t.keys[k] == s.keys[k])
    && (forall id :: id in s.artifacts ==>
          && id in t.artifacts && s.artifacts[id].latest <= t.artifacts[id].latest
          && t.artifacts[id].details == s.artifacts[id].details && t.artifacts[id].createdAt == s.artifacts[id].createdAt)
  }

  lemma EnsureBlobOk(s: Store, content: Content)
    requires StoreOk(s)
    ensures EnsureBlob(s, content).Done?
    ensures var t := EnsureBlob(s, content).value;
            StoreOk(t) && Grows(s, t) && content in t.blobs && t == s.(blobs := t.blobs)
            && (content in s.blobs ==> t == s)
  {
    var t := EnsureBlob(s, content).value;
    hide KeyOk, UniqueIds, FindRevision;
    forall id, n | id in t.artifacts && 1 <= n <= t.artifacts[id].latest ensures HasRevision(t, id, n) {
      assert HasRevision(s, id, n);
    }
    forall k | k in t.keys ensures KeyOk(t, t.keys[k]) { KeyStays(s, t, s.keys[k]); }
  }

  lemma KeyStays(s: Store, t: Store, row: KeyRow)
    requires KeyOk(s, row) && s.revisions <= t.revisions && s.artifacts.Keys <= t.artifacts.Keys
    ensures KeyOk(t, row)
  {
    assert forall r :: r in s.revisions ==> r in t.revisions;
  }

  lemma RevisionStays(s: Store, t: Store, id: string, n: nat)
    requires HasRevision(s, id, n) && s.revisions <= t.revisions
    ensures HasRevision(t, id, n)
  {
    var k :| 0 <= k < |s.revisions| && s.revisions[k].artifact == id && s.revisions[k].number == n;
    assert t.revisions[k].artifact == id && t.revisions[k].number == n;
  }

  /** Appending the next revision of an artifact keeps its numbers contiguous. */
  lemma AppendContiguous(s: Store, t: Store, r: Revision)
    requires Contiguous(s) && t.revisions == s.revisions + [r]
    requires r.artifact in t.artifacts && t.artifacts[r.artifact].id == r.artifact && t.artifacts[r.artifact].latest == r.number
    requires r.number == (if r.artifact in s.artifacts then s.artifacts[r.artifact].latest else 0) + 1
    requires forall id :: id in t.artifacts && id != r.artifact <==> id in s.artifacts && id != r.artifact
    requires forall id :: id in s.artifacts && id != r.artifact ==> t.artifacts[id] == s.artifacts[id]
    ensures Contiguous(t)
  {
    forall x | x in t.revisions
      ensures x.artifact in t.artifacts && 1 <= x.number <= t.artifacts[x.artifact].latest
    {
      if x != r { assert x in s.revisions; }
    }
    forall i, j | 0 <= i < j < |t.revisions| && t.revisions[i].artifact == t.revisions[j].artifact
      ensures t.revisions[i].number < t.revisions[j].number
    {
      assert t.revisions[i] == s.revisions[i];
      if j == |s.revisions| { assert s.revisions[i] in s.revisions; }
    }
    forall id, n | id in t.artifacts && 1 <= n <= t.artifacts[id].latest ensures HasRevision(t, id, n) {
      if id == r.artifact && n == r.number {
        assert t.revisions[|s.revisions|] == r;
      } else {
        assert HasRevision(s, id, n);
        RevisionStays(s, t, id, n);
      }
    }
  }

  lemma AppendUnique(rs: seq<Revision>, r: Revision)
    requires UniqueIds(rs) && forall k :: 0 <= k < |rs| ==> rs[k].id != r.id
    ensures UniqueIds(rs + [r])
  {
  }

  lemma NoRevisionsYet(s: Store, id: string)
    requires Contiguous(s) && id !in s.artifacts
    ensures forall r :: r in s.revisions ==> r.artifact != id
  {
  }

  lemma KeysPlus(s: Store, t: Store, key: string)
    requires (forall k :: k in s.keys ==> KeyOk(s, s.keys[k])) && key in t.keys && KeyOk(t, t.keys[key])
    requires t.keys == s.keys[key := t.keys[key]] && s.revisions <= t.revisions && s.artifacts.Keys <= t.artifacts.Keys
    ensures forall k :: k in t.keys ==> KeyOk(t, t.keys[k])
  {
    forall k | k in t.keys ensures KeyOk(t, t.keys[k]) {
      if k != key { KeyStays(s, t, s.keys[k]); }
    }
  }

  lemma CreatedOk(s: Store, op: Op)
    requires StoreOk(s) && op.Create? && op.request.CreateRequest? && FreshIds(s, op)
    requires CreateKey(op.key) !in s.keys && op.request.content in s.blobs
    ensures StoreOk(Created(s, op)) && Grows(s, Created(s, op))
  {
    var t, r := Created(s, op), FirstRevision(op);
    NoRevisionsYet(s, op.artifactId);
    AppendContiguous(s, t, r);
    AppendUnique(s.revisions, r);
    hide Contiguous, UniqueIds;
    assert t.revisions[|s.revisions|] == r && r in t.revisions;
    KeysPlus(s, t, CreateKey(op.key));
  }

  lemma RevisedOk(s: Store, op: Op)
    requires StoreOk(s) && op.Revise? && op.request.ReviseRequest? && op.request.artifact in s.artifacts && FreshIds(s, op)
    requires ReviseKey(op.request.artifact, op.key) !in s.keys && op.request.content in s.blobs
    ensures StoreOk(Revised(s, op)) && Grows(s, Revised(s, op))
  {
    var t, r := Revised(s, op), NextRevision(s, op);
    AppendContiguous(s, t, r);
    AppendUnique(s.revisions, r);
    hide Contiguous, UniqueIds;
    assert t.revisions[|s.revisions|] == r && r in t.revisions;
    KeysPlus(s, t, ReviseKey(op.request.artifact, op.key));
  }

  lemma GrowsTransitive(a: Store, b: Store, c: Store)
    requires Grows(a, b) && Grows(b, c)
    ensures Grows(a, c)
  {
  }

  /** What a creation may write: nothing, the blob, or the new artifact. */
  lemma CreateWrites(s: Store, op: Op)
    requires op.Create? && op.request.CreateRequest? && EnsureBlob(s, op.request.content).Done?
    ensures var t := EnsureBlob(s, op.request.content).value;
            var u := CreateArtifact(s, op).0;
            u == s || u == t || (u == Created(t, op) && CreateKey(op.key) !in s.keys)
  {
  }

  lemma ReviseWrites(s: Store, op: Op)
    requires op.Revise? && op.request.ReviseRequest? && EnsureBlob(s, op.request.content).Done?
    ensures var t := EnsureBlob(s, op.request.content).value;
            var u := AddRevision(s, op).0;
            || u == s || u == t
            || (op.request.artifact in s.artifacts && t.artifacts == s.artifacts && u == Revised(t, op)
                && ReviseKey(op.request.artifact, op.key) !in s.keys)
  {
  }

  lemma CreateKeeps(s: Store, op: Op)
    requires StoreOk(s) && op.Create? && op.request.CreateRequest? && FreshIds(s, op)
    ensures StoreOk(CreateArtifact(s, op).0) && Grows(s, CreateArtifact(s, op).0)
  {
    EnsureBlobOk(s, op.request.content);
    CreateWrites(s, op);
    SelfGrows(s);
    hide StoreOk, Grows, EnsureBlob, CreateArtifact, Created;
    var t := EnsureBlob(s, op.request.content).value;
    if CreateArtifact(s, op).0 == Created(t, op) && CreateKey(op.key) !in s.keys {
      CreatedOk(t, op);
      GrowsTransitive(s, t, Created(t, op));
    }
  }

  lemma ReviseKeeps(s: Store, op: Op)
    requires StoreOk(s) && op.Revise? && op.request.ReviseRequest? && FreshIds(s, op)
    ensures StoreOk(AddRevision(s, op).0) && Grows(s, AddRevision(s, op).0)
  {
    EnsureBlobOk(s, op.request.content);
    ReviseWrites(s, op);
    SelfGrows(s);
    hide StoreOk, Grows, EnsureBlob, AddRevision, Revised;
    var t := EnsureBlob(s, op.request.content).value;
    if op.request.artifact in s.artifacts && AddRevision(s, op).0 == Revised(t, op)
       && ReviseKey(op.request.artifact, op.key) !in s.keys {
      RevisedOk(t, op);
      GrowsTransitive(s, t, Revised(t, op));
    }
  }

  /** Every transaction keeps the store in order and only adds to it. */
  lemma ApplyKeeps(s: Store, op: Op)
    requires StoreOk(s) && WellTyped(op) && FreshIds(s, op)
    ensures StoreOk(Apply(s, op).0) && Grows(s, Apply(s, op).0)
  {
    hide StoreOk, Grows, CreateArtifact, AddRevision;
    match op
    case Create(_, _, _, _, _, _) => CreateKeeps(s, op);
    case Revise(_, _, _, _, _) => ReviseKeeps(s, op);
    case Aborted(content) => EnsureBlobOk(s, content);
  }

  lemma SelfGrows(s: Store)
    ensures Grows(s, s)
  {
  }

  // ---- whole runs ----

  const Empty := Store(map[], [], map[], map[])

  /** A run: stores and transactions, every generated id new when it is used. */
  ghost predicate Behaviour(trace: seq<Store>, ops: seq<Op>) {
    && |trace| == |ops| + 1 && trace[0] == Empty
    && forall i :: 0 <= i < |ops| ==> StepAt(trace, ops, i)
  }

  ghost predicate StepAt(trace: seq<Store>, ops: seq<Op>, i: nat)
    requires |trace| == |ops| + 1 && i < |ops|
  {
    WellTyped(ops[i]) && FreshIds(trace[i], ops[i]) && trace[i + 1] == Apply(trace[i], ops[i]).0
  }

  lemma {:induction false} ReachableOk(trace: seq<Store>, ops: seq<Op>, n: nat)
    requires Behaviour(trace, ops) && n < |trace|
    ensures StoreOk(trace[n])
  {
    hide StoreOk, Apply, FreshIds;
    if n == 0 {
      EmptyOk();
    } else {
      ReachableOk(trace, ops, n - 1);
      assert StepAt(trace, ops, n - 1);
      ApplyKeeps(trace[n - 1], ops[n - 1]);
    }
  }

  lemma EmptyOk()
    ensures StoreOk(Empty)
  {
  }

  lemma {:induction false} OnlyAdds(trace: seq<Store>, ops: seq<Op>, m: nat, n: nat)
    requires Behaviour(trace, ops) && m <= n < |trace|
    ensures Grows(trace[m], trace[n])
  {
    hide StoreOk, Apply, FreshIds, Grows;
    if m == n {
      SelfGrows(trace[m]);
    } else {
      OnlyAdds(trace, ops, m, n - 1);
      ReachableOk(trace, ops, n - 1);
      assert StepAt(trace, ops, n - 1);
      ApplyKeeps(trace[n - 1], ops[n - 1]);
      GrowsTransitive(trace[m], trace[n - 1], trace[n]);
    }
  }

  // ---- reads of a store in order ----

  lemma {:induction false} FindIs(rs: seq<Revision>, artifact: string, number: nat, k: nat)
    requires k < |rs| && rs[k].artifact == artifact && rs[k].number == number
    requires forall i, j :: 0 <= i < j < |rs| ==> rs[i].artifact == rs[j].artifact ==> rs[i].number < rs[j].number
    ensures FindRevision(rs, artifact, number) == Some(rs[k])
  {
    if k > 0 {
      assert !(rs[0].artifact == artifact && rs[0].number == number);
      FindIs(rs[1..], artifact, number, k - 1);
    }
  }

  lemma {:induction false} FindByIdIs(rs: seq<Revision>, k: nat)
    requires k < |rs| && UniqueIds(rs)
    ensures FindById(rs, rs[k].id) == Some(rs[k])
  {
    if k > 0 { FindByIdIs(rs[1..], k - 1); }
  }

  /** A stored revision reads back the bytes it was made of. */
  lemma ReadsBack(s: Store, r: Revision)
    requires StoreOk(s) && r in s.revisions && Bounded(r.artifact)
    ensures ReadRevision(s, r.artifact, Some(r.number)) == Done(r.hash)
  {
    var k :| 0 <= k < |s.revisions| && s.revisions[k] == r;
    FindIs(s.revisions, r.artifact, r.number, k);
  }

  lemma {:induction false} FilterSorted(rs: seq<Revision>, id: string)
    requires forall i, j :: 0 <= i < j < |rs| ==> rs[i].artifact == rs[j].artifact ==> rs[i].number < rs[j].number
    ensures var f := Filter(rs, OfArtifact(id));
            && (forall r :: r in f <==> r in rs && r.artifact == id)
            && (forall i, j :: 0 <= i < j < |f| ==> f[i].number < f[j].number)
  {
    if rs != [] {
      var n := |rs| - 1;
      FilterSorted(rs[..n], id);
      assert rs == rs[..n] + [rs[n]];
      assert forall r :: r in rs <==> r in rs[..n] || r == rs[n];
      forall r | r in Filter(rs[..n], OfArtifact(id)) && rs[n].artifact == id ensures r.number < rs[n].number {
        var k :| 0 <= k < n && rs[k] == r;
      }
    }
  }

  /** Strictly rising numbers that take every value from 1 to n are 1, 2, .., n. */
  lemma {:induction false} OneToN(rows: seq<Revision>, n: nat)
    requires forall i, j :: 0 <= i < j < |rows| ==> rows[i].number < rows[j].number
    requires forall i :: 0 <= i < |rows| ==> 1 <= rows[i].number <= n
    requires forall m :: 1 <= m <= n ==> Taken(rows, m)
    ensures |rows| == n && forall i :: 0 <= i < |rows| ==> rows[i].number == i + 1
  {
    if n == 0 {
      var first := FirstNumber(rows);
      assert first <= 0;
    } else {
      assert Taken(rows, n);
      var k :| 0 <= k < |rows| && rows[k].number == n;
      InRange(rows, |rows| - 1, n);
      LastIsHighest(rows, k);
      var front := rows[..|rows| - 1];
      assert rows[|rows| - 1].number == n;
      forall m | 1 <= m <= n - 1 ensures Taken(front, m) {
        assert Taken(rows, m);
        var j :| 0 <= j < |rows| && rows[j].number == m;
        assert front[j].number == m;
      }
      OneToN(front, n - 1);
    }
  }

  function FirstNumber(rows: seq<Revision>): int {
    if rows == [] then 0 else rows[0].number
  }

  lemma InRange(rows: seq<Revision>, i: nat, n: nat)
    requires i < |rows| && forall k :: 0 <= k < |rows| ==> 1 <= rows[k].number <= n
    ensures 1 <= rows[i].number <= n
  {
  }

  lemma LastIsHighest(rows: seq<Revision>, k: nat)
    requires k < |rows| && forall i, j :: 0 <= i < j < |rows| ==> rows[i].number < rows[j].number
    ensures k == |rows| - 1 || rows[k].number < rows[|rows| - 1].number
  {
  }

  ghost predicate Taken(rows: seq<Revision>, m: nat) {
    exists i :: 0 <= i < |rows| && rows[i].number == m
  }

  lemma AllTaken(s: Store, id: string, f: seq<Revision>)
    requires Contiguous(s) && id in s.artifacts && forall r :: r in f <==> r in s.revisions && r.artifact == id
    ensures forall m :: 1 <= m <= s.artifacts[id].latest ==> Taken(f, m)
    ensures forall i :: 0 <= i < |f| ==> f[i].artifact == id && 1 <= f[i].number <= s.artifacts[id].latest
  {
    forall m | 1 <= m <= s.artifacts[id].latest ensures Taken(f, m) {
      assert HasRevision(s, id, m);
      var k :| 0 <= k < |s.revisions| && s.revisions[k].artifact == id && s.revisions[k].number == m;
      assert s.revisions[k] in f;
    }
    forall i | 0 <= i < |f| ensures f[i].artifact == id && 1 <= f[i].number <= s.artifacts[id].latest { assert f[i] in f; }
  }

  /** The query returns the revisions of an artifact as 1, 2, .., latest. */
  lemma RevisionsAre(s: Store, id: string)
    requires StoreOk(s) && id in s.artifacts
    ensures var rows := RevisionsOf(s, id);
            && BundleOk(s.artifacts[id], rows)
            && forall r :: r in rows <==> r in s.revisions && r.artifact == id
  {
    FilterSorted(s.revisions, id);
    var f := Filter(s.revisions, OfArtifact(id));
    AllTaken(s, id, f);
    SortRising(f);
    OneToN(f, s.artifacts[id].latest);
  }

  lemma SortRising(f: seq<Revision>)
    requires forall i, j :: 0 <= i < j < |f| ==> f[i].number < f[j].number
    ensures Sort(f, LowerNumber) == f
  {
    NumbersOrder(f);
    hide Separates, Sorted, StrictOrder;
    SortFixed(f, LowerNumber);
  }

  lemma NumbersOrder(f: seq<Revision>)
    requires forall i, j :: 0 <= i < j < |f| ==> f[i].number < f[j].number
    ensures StrictOrder(LowerNumber) && Separates(multiset(f), LowerNumber) && Sorted(f, LowerNumber)
  {
    forall a, b | a in multiset(f) && b in multiset(f) && a != b ensures LowerNumber(a, b) || LowerNumber(b, a) {
      var i :| 0 <= i < |f| && f[i] == a;
      var j :| 0 <= j < |f| && f[j] == b;
    }
  }

  // ---- what callers rely on ----

  /** In every reachable store a bundle of an existing artifact passes its own checks, unless it
      is longer than the caller allows. */
  lemma BundlesNeverFail(trace: seq<Store>, ops: seq<Op>, n: nat, id: string, max: Option<nat>)
    requires Behaviour(trace, ops) && n < |trace| && Bounded(id) && id in trace[n].artifacts && max != Some(0)
    ensures var latest := trace[n].artifacts[id].latest;
            GetBundle(trace[n], id, max)
            == if max.Some? && latest > max.value then Failed(Capacity)
               else Done((trace[n].artifacts[id], RevisionsOf(trace[n], id)))
  {
    hide Behaviour, StoreOk, RevisionsOf;
    ReachableOk(trace, ops, n);
    RevisionsAre(trace[n], id);
  }

  /** A revision, once written, is there for ever under its number and reads back its bytes. */
  lemma RevisionsLast(trace: seq<Store>, ops: seq<Op>, m: nat, n: nat, r: Revision)
    requires Behaviour(trace, ops) && m <= n < |trace| && r in trace[m].revisions && Bounded(r.artifact)
    ensures r in trace[n].revisions && ReadRevision(trace[n], r.artifact, Some(r.number)) == Done(r.hash)
  {
    hide Behaviour, StoreOk, ReadRevision;
    OnlyAdds(trace, ops, m, n);
    ReachableOk(trace, ops, n);
    ReadsBack(trace[n], r);
  }

  function ScopeKey(op: Op): string
    requires !op.Aborted? && WellTyped(op)
  {
    if op.Create? then CreateKey(op.key) else ReviseKey(op.request.artifact, op.key)
  }

  /** What an idempotency row leads to. */
  function ResultOf(s: Store, op: Op, row: KeyRow): Option<Outcome>
    requires !op.Aborted? && WellTyped(op)
  {
    if op.Create? then
      match FindRevision(s.revisions, row.resultId, 1) case None => None case Some(r) => Some(Outcome(row.resultId, r, false))
    else
      match FindById(s.revisions, row.resultId) case None => None case Some(r) => Some(Outcome(op.request.artifact, r, false))
  }

  lemma {:induction false} FindStays(rs: seq<Revision>, more: seq<Revision>, artifact: string, number: nat)
    requires rs <= more && FindRevision(rs, artifact, number).Some?
    ensures FindRevision(more, artifact, number) == FindRevision(rs, artifact, number)
  {
    if !(rs[0].artifact == artifact && rs[0].number == number) { FindStays(rs[1..], more[1..], artifact, number); }
  }

  lemma {:induction false} FindByIdStays(rs: seq<Revision>, more: seq<Revision>, id: string)
    requires rs <= more && FindById(rs, id).Some?
    ensures FindById(more, id) == FindById(rs, id)
  {
    if rs[0].id != id { FindByIdStays(rs[1..], more[1..], id); }
  }

  lemma ResultStays(s: Store, t: Store, op: Op, row: KeyRow)
    requires !op.Aborted? && WellTyped(op) && Grows(s, t) && ResultOf(s, op, row).Some?
    ensures ResultOf(t, op, row) == ResultOf(s, op, row)
  {
    if op.Create? {
      FindStays(s.revisions, t.revisions, row.resultId, 1);
    } else {
      FindByIdStays(s.revisions, t.revisions, row.resultId);
    }
  }

  /** A successful request leaves a row under its key that leads to its result. */
  lemma Recorded(s: Store, op: Op)
    requires StoreOk(s) && !op.Aborted? && WellTyped(op) && FreshIds(s, op) && Apply(s, op).1.Done?
    ensures var t, o := Apply(s, op).0, Apply(s, op).1.value;
            && ScopeKey(op) in t.keys && t.keys[ScopeKey(op)].digest == op.request
            && ResultOf(t, op, t.keys[ScopeKey(op)]) == Some(o.(created := false))
            && op.request.content in t.blobs && o.revision in t.revisions && o.revision.hash == op.request.content
            && o.revision.artifact == o.artifact
  {
    ApplyKeeps(s, op);
    EnsureBlobOk(s, op.request.content);
    var t, o := Apply(s, op).0, Apply(s, op).1.value;
    if o.created {
      NewRevision(s, op);
    } else {
      OldRevision(s, op);
    }
  }

  /** The state after a request that wrote a revision. */
  lemma NewState(s: Store, op: Op)
    requires !op.Aborted? && WellTyped(op) && Apply(s, op).1.Done? && Apply(s, op).1.value.created
    ensures EnsureBlob(s, op.request.content).Done?
    ensures var b, t, o := EnsureBlob(s, op.request.content).value, Apply(s, op).0, Apply(s, op).1.value;
            && t.blobs == b.blobs && t.revisions == s.revisions + [o.revision]
            && o.revision.artifact == o.artifact && o.revision.hash == op.request.content
            && (op.Create? ==> o.revision.number == 1)
            && ScopeKey(op) in t.keys
            && t.keys[ScopeKey(op)] == KeyRow(op.request, if op.Create? then o.artifact else o.revision.id)
  {
  }

  lemma NewRevision(s: Store, op: Op)
    requires StoreOk(s) && !op.Aborted? && WellTyped(op) && FreshIds(s, op) && Apply(s, op).1.Done? && Apply(s, op).1.value.created
    requires StoreOk(Apply(s, op).0)
    ensures var t, o := Apply(s, op).0, Apply(s, op).1.value;
            && ScopeKey(op) in t.keys && t.keys[ScopeKey(op)].digest == op.request
            && ResultOf(t, op, t.keys[ScopeKey(op)]) == Some(o.(created := false))
            && op.request.content in t.blobs && o.revision in t.revisions && o.revision.hash == op.request.content
            && o.revision.artifact == o.artifact
  {
    NewState(s, op);
    EnsureBlobOk(s, op.request.content);
    hide KeyOk, Apply, EnsureBlob, FreshIds;
    var t, o := Apply(s, op).0, Apply(s, op).1.value;
    var k := |s.revisions|;
    assert t.revisions[k] == o.revision;
    if op.Create? { FindIs(t.revisions, o.artifact, 1, k); } else { FindByIdIs(t.revisions, k); }
  }

  lemma OldRevision(s: Store, op: Op)
    requires StoreOk(s) && !op.Aborted? && WellTyped(op) && Apply(s, op).1.Done? && !Apply(s, op).1.value.created
    requires EnsureBlob(s, op.request.content).Done? && op.request.content in EnsureBlob(s, op.request.content).value.blobs
    requires EnsureBlob(s, op.request.content).value == s.(blobs := EnsureBlob(s, op.request.content).value.blobs)
    ensures var t, o := Apply(s, op).0, Apply(s, op).1.value;
            && ScopeKey(op) in t.keys && t.keys[ScopeKey(op)].digest == op.request
            && ResultOf(t, op, t.keys[ScopeKey(op)]) == Some(o.(created := false))
            && op.request.content in t.blobs && o.revision in t.revisions && o.revision.hash == op.request.content
            && o.revision.artifact == o.artifact
  {
    var row := s.keys[ScopeKey(op)];
    assert KeyOk(s, row) && row.digest == op.request;
    hide EnsureBlob;
    if op.Create? {
      var r :| r in s.revisions && r.artifact == row.resultId && r.number == 1 && r.hash == op.request.content;
      var k :| 0 <= k < |s.revisions| && s.revisions[k] == r;
      FindIs(s.revisions, row.resultId, 1, k);
    } else {
      var r :| r in s.revisions && r.id == row.resultId && r.artifact == op.request.artifact && r.hash == op.request.content;
      var k :| 0 <= k < |s.revisions| && s.revisions[k] == r;
      FindByIdIs(s.revisions, k);
    }
  }

  /** A request that passes the checks before the transaction. */
  predicate Admissible(op: Op) {
    && !op.Aborted? && WellTyped(op) && Bounded(op.key) && |op.request.content| <= MAX_BYTES && op.valid
    && (op.Revise? ==> Bounded(op.request.artifact))
  }

  /** Repeating a request under its key, at any later time, returns the original revision and
      changes nothing; a different request under that key is refused and changes nothing. */
  lemma ReplayOrConflict(trace: seq<Store>, ops: seq<Op>, m: nat, n: nat, again: Op)
    requires Behaviour(trace, ops) && m < n < |trace| && !ops[m].Aborted? && WellTyped(ops[m])
    requires Apply(trace[m], ops[m]).1.Done?
    requires Admissible(again) && (again.Create? <==> ops[m].Create?) && ScopeKey(again) == ScopeKey(ops[m])
    ensures var o := Apply(trace[m], ops[m]).1.value;
            Apply(trace[n], again)
            == if again.request == ops[m].request then (trace[n], Done(o.(created := false))) else (trace[n], Failed(Conflict))
  {
    hide Apply, StoreOk, Grows, ResultOf;
    assert StepAt(trace, ops, m);
    hide Behaviour, StepAt;
    ReachableOk(trace, ops, m);
    Recorded(trace[m], ops[m]);
    ReachableOk(trace, ops, n);
    OnlyAdds(trace, ops, m + 1, n);
    hide StoreOk, FreshIds, Apply, Grows, Admissible, ResultOf;
    var row := trace[m + 1].keys[ScopeKey(ops[m])];
    KeyKept(trace[m + 1], trace[n], ops[m]);
    if again.request == ops[m].request {
      ResultStays(trace[m + 1], trace[n], ops[m], row);
      SameResult(trace[n], ops[m], again, row);
      ResultExists(trace[n], again, row);
    } else {
      Refused(trace[n], again, row);
    }
  }

  lemma KeyKept(s: Store, t: Store, op: Op)
    requires Grows(s, t) && !op.Aborted? && WellTyped(op) && ScopeKey(op) in s.keys && op.request.content in s.blobs
    ensures ScopeKey(op) in t.keys && t.keys[ScopeKey(op)] == s.keys[ScopeKey(op)] && op.request.content in t.blobs
  {
  }

  lemma SameResult(s: Store, a: Op, b: Op, row: KeyRow)
    requires !a.Aborted? && !b.Aborted? && WellTyped(a) && WellTyped(b) && a.request == b.request && (a.Create? <==> b.Create?)
    ensures ResultOf(s, a, row) == ResultOf(s, b, row)
  {
  }

  lemma Refused(s: Store, op: Op, row: KeyRow)
    requires Admissible(op) && ScopeKey(op) in s.keys && s.keys[ScopeKey(op)] == row && row.digest != op.request
    ensures Apply(s, op) == (s, Failed(Conflict))
  {
  }

  lemma ResultExists(s: Store, op: Op, row: KeyRow)
    requires StoreOk(s) && Admissible(op) && ScopeKey(op) in s.keys && s.keys[ScopeKey(op)] == row && row.digest == op.request
    requires op.request.content in s.blobs && ResultOf(s, op, row).Some?
    ensures Apply(s, op) == (s, Done(ResultOf(s, op, row).value))
  {
    assert KeyOk(s, row);
  }

  /** Whatever a request returned reads back the bytes it gave, then and ever after. */
  lemma WrittenIsRead(trace: seq<Store>, ops: seq<Op>, m: nat, n: nat)
    requires Behaviour(trace, ops) && m < n < |trace| && !ops[m].Aborted? && WellTyped(ops[m])
    requires Apply(trace[m], ops[m]).1.Done? && Bounded(Apply(trace[m], ops[m]).1.value.artifact)
    ensures var o := Apply(trace[m], ops[m]).1.value;
            ReadRevision(trace[n], o.artifact, Some(o.revision.number)) == Done(ops[m].request.content)
  {
    assert StepAt(trace, ops, m);
    hide Behaviour, StepAt, StoreOk, ReadRevision, FreshIds;
    ReachableOk(trace, ops, m);
    Recorded(trace[m], ops[m]);
    RevisionsLast(trace, ops, m + 1, n, Apply(trace[m], ops[m]).1.value.revision);
  }

  // ---- the store as it is written ----

  class FileArtifactStore {
    var artifacts: map<string, Artifact>
    var revisions: seq<Revision>
    var idempotency: map<string, KeyRow>
    var blobs: map<Content, Content>

    function State(): Store
      reads this
    {
      Store(artifacts, revisions, idempotency, blobs)
    }

    constructor ()
      ensures State() == Empty
    {
      artifacts, revisions, idempotency, blobs := map[], [], map[], map[];
    }

    method WriteBlob(content: Content) returns (ok: bool)
      modifies this`blobs
      ensures ok == EnsureBlob(old(State()), content).Done?
      ensures State() == if ok then EnsureBlob(old(State()), content).value else old(State())
    {
      if content !in blobs { blobs := blobs[content := content]; }
      ok := blobs[content] == content;
    }

    method RevisionLocked(artifact: string, number: nat) returns (r: Option<Revision>)
      ensures r == FindRevision(revisions, artifact, number)
    {
      var i := 0;
      while i < |revisions|
        invariant 0 <= i <= |revisions|
        invariant FindRevision(revisions[i..], artifact, number) == FindRevision(revisions, artifact, number)
      {
        if revisions[i].artifact == artifact && revisions[i].number == number { return Some(revisions[i]); }
        assert revisions[i..][1..] == revisions[i + 1..];
        i := i + 1;
      }
      r := None;
    }

    method RevisionById(id: string) returns (r: Option<Revision>)
      ensures r == FindById(revisions, id)
    {
      var i := 0;
      while i < |revisions|
        invariant 0 <= i <= |revisions|
        invariant FindById(revisions[i..], id) == FindById(revisions, id)
      {
        if revisions[i].id == id { return Some(revisions[i]); }
        assert revisions[i..][1..] == revisions[i + 1..];
        i := i + 1;
      }
      r := None;
    }

    method Create(op: Op) returns (r: Answer<Outcome>)
      requires op.Create? && op.request.CreateRequest?
      modifies this
      ensures (State(), r) == CreateArtifact(old(State()), op)
    {
      hide FindRevision;
      if !Bounded(op.key) { return Failed(InvalidRequest); }
      if |op.request.content| > MAX_BYTES { return Failed(Capacity); }
      if !op.valid { return Failed(InvalidRequest); }
      var scope := CreateKey(op.key);
      if scope in idempotency {
        var row := idempotency[scope];
        if row.digest != op.request { return Failed(Conflict); }
        var ok := WriteBlob(op.request.content);
        if !ok { return Failed(Integrity); }
        if row.resultId !in artifacts { return Failed(NotFound); }
        var first := RevisionLocked(row.resultId, 1);
        if first.None? { return Failed(NotFound); }
        return Done(Outcome(row.resultId, first.value, false));
      }
      var ok := WriteBlob(op.request.content);
      if !ok { return Failed(Integrity); }
      artifacts := artifacts[op.artifactId := Artifact(op.artifactId, 1, op.request.details, op.now, op.now)];
      var revision := Revision(op.revisionId, op.artifactId, 1, op.request.content, |op.request.content|, op.request.details, op.now);
      revisions := revisions + [revision];
      idempotency := idempotency[scope := KeyRow(op.request, op.artifactId)];
      r := Done(Outcome(op.artifactId, revision, true));
    }

    method Revise(op: Op) returns (r: Answer<Outcome>)
      requires op.Revise? && op.request.ReviseRequest?
      modifies this
      ensures (State(), r) == AddRevision(old(State()), op)
    {
      hide FindById;
      var id := op.request.artifact;
      if !Bounded(id) || !Bounded(op.key) { return Failed(InvalidRequest); }
      if |op.request.content| > MAX_BYTES { return Failed(Capacity); }
      if !op.valid { return Failed(InvalidRequest); }
      var scope := ReviseKey(id, op.key);
      if scope in idempotency {
        var row := idempotency[scope];
        if row.digest != op.request { return Failed(Conflict); }
        var ok := WriteBlob(op.request.content);
        if !ok { return Failed(Integrity); }
        var found := RevisionById(row.resultId);
        if found.None? { return Failed(Integrity); }
        return Done(Outcome(id, found.value, false));
      }
      if id !in artifacts { return Failed(NotFound); }
      var artifact := artifacts[id];
      var revision := Revision(op.revisionId, id, artifact.latest + 1, op.request.content, |op.request.content|,
                               op.request.details, op.now);
      var ok := WriteBlob(op.request.content);
      if !ok { return Failed(Integrity); }
      revisions := revisions + [revision];
      artifacts := artifacts[id := artifact.(latest := revision.number, updatedAt := op.now)];
      idempotency := idempotency[scope := KeyRow(op.request, op.revisionId)];
      r := Done(Outcome(id, revision, true));
    }

    method Read(id: string, number: Option<nat>) returns (r: Answer<Content>)
      ensures r == ReadRevision(State(), id, number)
    {
      if !Bounded(id) { return Failed(InvalidRequest); }
      if id !in artifacts { return Failed(NotFound); }
      var n := if number.None? || number.value == 0 then artifacts[id].latest else number.value;
      var found := RevisionLocked(id, n);
      if found.None? { return Failed(NotFound); }
      var revision := found.value;
      if revision.hash !in blobs { return Failed(Integrity); }
      var content := blobs[revision.hash];
      if |content| != revision.byteLength || content != revision.hash { return Failed(Integrity); }
      r := Done(content);
    }
  }
}
