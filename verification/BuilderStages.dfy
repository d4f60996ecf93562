// The context builder's filters: validation, trust, scope, lifecycle, duplicates, conflicting
// facts. Each excludes items for one reason and keeps the rest in order.

module BuilderStages {
  import opened Common
  import opened Lists

  datatype Marker = Shared | CoordinatorScope | ReviewerScope | WorkerScope(task: string) | OtherScope(text: string)

  datatype Role = Coordinator | Worker | Reviewer

  datatype View = View(role: Role, task: Option<string>)

  datatype Layer = L0 | L1 | L2 | L3 | L4

  datatype Kind = Fact | Constraint | EvidenceRef | Todo | Observation | NamedKind(name: string)

  /** A stored item. known says whether its layer, kind and source are in the vocabulary; a
      summary lists the ids it was made of, in its source reference and its metadata. */
  datatype Item = Item(
    id: string, layer: Layer, kind: Kind, content: string, fromFile: bool, external: bool, priority: int,
    scope: seq<Marker>, validFrom: int, validTo: Option<int>, supersedes: Option<string>, tokens: int,
    task: Option<string>, known: bool, sourceRef: string, compacted: seq<string>)

  datatype Reason =
    | TrustViolation | ScopeMismatch | Expired | Superseded | Deduplication | ConflictingFacts | BudgetOverflow
    | CompactionSummary

  datatype Exclusion = Exclusion(id: string, reason: Reason)

  predicate Valid(i: Item) {
    && i.known && 0 <= i.validFrom && 0 <= i.tokens && i.scope != []
    && (i.validTo.Some? ==> i.validFrom < i.validTo.value)
  }

  predicate Visible(i: Item, v: View) {
    exists k :: 0 <= k < |i.scope| &&
      match i.scope[k]
      case Shared => true
      case CoordinatorScope => v.role == Coordinator
      case ReviewerScope => v.role == Reviewer
      case WorkerScope(task) => v.role == Worker && v.task == Some(task)
      case OtherScope(_) => false
  }

  predicate ActiveAt(i: Item, at: int) {
    i.validFrom <= at && (i.validTo.Some? ==> at < i.validTo.value)
  }

  /** The items that may never be dropped for budget. */
  predicate Protected(i: Item) {
    i.layer in {L0, L1} || i.kind in {Constraint, EvidenceRef} || (i.kind == Todo && i.validTo.None?)
  }

  // ---- one stage ----

  datatype Stage = Stage(kept: seq<Item>, excluded: seq<Exclusion>)

  function IdOf(i: Item): string { i.id }

  function Ids(items: seq<Item>): seq<string> {
    Map(items, IdOf)
  }

  function ExcludedId(e: Exclusion): string { e.id }

  function ExcludedIds(es: seq<Exclusion>): seq<string> {
    Map(es, ExcludedId)
  }

  type Why = Item -> Option<Reason>

  /** Excludes the items for which there is a reason. */
  function Exclude(items: seq<Item>, why: Why): Stage {
    if items == [] then Stage([], [])
    else
      var s := Exclude(items[..|items| - 1], why);
      var i := items[|items| - 1];
      match why(i)
      case None => s.(kept := s.kept + [i])
      case Some(r) => s.(excluded := s.excluded + [Exclusion(i.id, r)])
  }

  ghost predicate Accounts(items: seq<Item>, s: Stage) {
    && multiset(s.kept) <= multiset(items)
    && multiset(Ids(s.kept)) + multiset(ExcludedIds(s.excluded)) == multiset(Ids(items))
  }

  lemma PushItem(items: seq<Item>, i: Item)
    ensures multiset(Ids(items + [i])) == multiset(Ids(items)) + multiset{i.id}
  {
    assert Ids(items + [i]) == Ids(items) + [i.id];
  }

  lemma PushExcluded(es: seq<Exclusion>, e: Exclusion)
    ensures multiset(ExcludedIds(es + [e])) == multiset(ExcludedIds(es)) + multiset{e.id}
  {
    assert ExcludedIds(es + [e]) == ExcludedIds(es) + [e.id];
  }

  lemma KeepOne(items: seq<Item>, s: Stage, i: Item)
    requires Accounts(items, s)
    ensures Accounts(items + [i], s.(kept := s.kept + [i]))
  {
    PushItem(items, i);
    PushItem(s.kept, i);
  }

  lemma ExcludeOne(items: seq<Item>, s: Stage, i: Item, r: Reason)
    requires Accounts(items, s)
    ensures Accounts(items + [i], s.(excluded := s.excluded + [Exclusion(i.id, r)]))
  {
    PushItem(items, i);
    PushExcluded(s.excluded, Exclusion(i.id, r));
  }

  lemma NothingAccounts()
    ensures Accounts([], Stage([], []))
  {
    assert Ids([]) == [] && ExcludedIds([]) == [];
  }

  lemma {:induction false} ExcludeAccounts(items: seq<Item>, why: Why)
    ensures Accounts(items, Exclude(items, why))
  {
    hide Accounts;
    if items == [] {
      NothingAccounts();
    } else {
      var n := |items| - 1;
      ExcludeAccounts(items[..n], why);
      assert items == items[..n] + [items[n]];
      KeepOne(items[..n], Exclude(items[..n], why), items[n]);
      if why(items[n]).Some? { ExcludeOne(items[..n], Exclude(items[..n], why), items[n], why(items[n]).value); }
    }
  }

  lemma {:induction false} ExcludeKeeps(items: seq<Item>, why: Why)
    ensures forall i :: i in Exclude(items, why).kept <==> i in items && why(i).None?
  {
    if items != [] {
      var n := |items| - 1;
      ExcludeKeeps(items[..n], why);
      assert items == items[..n] + [items[n]];
    }
  }

  // ---- the stages ----

  function Invalid(): Why {
    (i: Item) => if Valid(i) then None else Some(TrustViolation)
  }

  /** External material stays out of the constitution and role layers. */
  function Untrusted(): Why {
    (i: Item) => if i.external && i.layer in {L0, L1} then Some(TrustViolation) else None
  }

  function Hidden(v: View): Why {
    (i: Item) => if Visible(i, v) then None else Some(ScopeMismatch)
  }

  function Targets(items: seq<Item>): set<string> {
    set k | 0 <= k < |items| && items[k].supersedes.Some? :: items[k].supersedes.value
  }

  function Outdated(items: seq<Item>, at: int): Why {
    var targets := Targets(items);
    (i: Item) => if !ActiveAt(i, at) then Some(Expired) else if i.id in targets then Some(Superseded) else None
  }

  function Duplicates(items: seq<Item>): Stage {
    if items == [] then Stage([], [])
    else
      var s := Duplicates(items[..|items| - 1]);
      var i := items[|items| - 1];
      if i.id in Ids(s.kept) then s.(excluded := s.excluded + [Exclusion(i.id, Deduplication)])
      else s.(kept := s.kept + [i])
  }

  predicate SameTopic(a: Item, b: Item) {
    a.kind == Fact && b.kind == Fact && a.layer == b.layer && a.task == b.task
  }

  /** A fact conflicts when another fact on the same layer and task says something else. */
  predicate Conflicting(items: seq<Item>, i: Item) {
    exists a, b :: 0 <= a < |items| && 0 <= b < |items| && SameTopic(items[a], i) && SameTopic(items[b], i)
                   && items[a].content != items[b].content
  }

  function ConflictIds(items: seq<Item>): set<string> {
    set k | 0 <= k < |items| && Conflicting(items, items[k]) :: items[k].id
  }

  function Conflicts(items: seq<Item>): Why {
    var ids := ConflictIds(items);
    (i: Item) => if i.id in ids then Some(ConflictingFacts) else None
  }

  /** All filters, in order. */
  function Filtered(rows: seq<Item>, v: View, at: int): Stage {
    var a := Exclude(rows, Invalid());
    var b := Exclude(a.kept, Untrusted());
    var c := Exclude(b.kept, Hidden(v));
    var d := Exclude(c.kept, Outdated(c.kept, at));
    var e := Duplicates(d.kept);
    var f := Exclude(e.kept, Conflicts(e.kept));
    Stage(f.kept, a.excluded + b.excluded + c.excluded + d.excluded + e.excluded + f.excluded)
  }

  lemma {:induction false} DuplicatesAccount(items: seq<Item>)
    ensures Accounts(items, Duplicates(items))
  {
    hide Accounts;
    if items == [] {
      NothingAccounts();
    } else {
      var n := |items| - 1;
      DuplicatesAccount(items[..n]);
      assert items == items[..n] + [items[n]];
      KeepOne(items[..n], Duplicates(items[..n]), items[n]);
      ExcludeOne(items[..n], Duplicates(items[..n]), items[n], Deduplication);
    }
  }

  /** Two stages in a row account for everything the first one was given. */
  lemma Then(items: seq<Item>, s: Stage, t: Stage)
    requires Accounts(items, s) && Accounts(s.kept, t)
    ensures Accounts(items, Stage(t.kept, s.excluded + t.excluded))
  {
    assert ExcludedIds(s.excluded + t.excluded) == ExcludedIds(s.excluded) + ExcludedIds(t.excluded);
  }

  /** Every row is kept or excluded, once, under one reason. */
  lemma FilteredAccounts(rows: seq<Item>, v: View, at: int)
    ensures Accounts(rows, Filtered(rows, v, at))
  {
    hide Accounts, Exclude, Duplicates;
    var a := Exclude(rows, Invalid());
    var b := Exclude(a.kept, Untrusted());
    var c := Exclude(b.kept, Hidden(v));
    var d := Exclude(c.kept, Outdated(c.kept, at));
    var e := Duplicates(d.kept);
    var f := Exclude(e.kept, Conflicts(e.kept));
    ExcludeAccounts(rows, Invalid());
    ExcludeAccounts(a.kept, Untrusted());
    Then(rows, a, b);
    ExcludeAccounts(b.kept, Hidden(v));
    Then(rows, Stage(b.kept, a.excluded + b.excluded), c);
    ExcludeAccounts(c.kept, Outdated(c.kept, at));
    Then(rows, Stage(c.kept, a.excluded + b.excluded + c.excluded), d);
    DuplicatesAccount(d.kept);
    Then(rows, Stage(d.kept, a.excluded + b.excluded + c.excluded + d.excluded), e);
    ExcludeAccounts(e.kept, Conflicts(e.kept));
    Then(rows, Stage(e.kept, a.excluded + b.excluded + c.excluded + d.excluded + e.excluded), f);
  }

  ghost predicate DistinctIds(items: seq<Item>) {
    forall x :: multiset(Ids(items))[x] <= 1
  }

  lemma {:induction false} DuplicatesKeep(items: seq<Item>)
    ensures forall i :: i in Duplicates(items).kept ==> i in items
    ensures DistinctIds(Duplicates(items).kept)
  {
    if items == [] {
      assert Ids([]) == [];
    } else {
      var n := |items| - 1;
      DuplicatesKeep(items[..n]);
      var kept := Duplicates(items[..n]).kept;
      PushItem(kept, items[n]);
      assert items[n].id in Ids(kept) <==> items[n].id in multiset(Ids(kept));
      assert items == items[..n] + [items[n]];
    }
  }

  lemma NoConflicts(items: seq<Item>, i: Item, j: Item)
    requires i in Exclude(items, Conflicts(items)).kept && j in Exclude(items, Conflicts(items)).kept && SameTopic(i, j)
    ensures i.content == j.content
  {
    ExcludeAccounts(items, Conflicts(items));
    SameElements(Exclude(items, Conflicts(items)).kept, items);
    ExcludeKeeps(items, Conflicts(items));
  }

  lemma ExcludeDistinct(items: seq<Item>, why: Why)
    requires DistinctIds(items)
    ensures DistinctIds(Exclude(items, why).kept)
  {
    ExcludeAccounts(items, why);
    assert multiset(Ids(Exclude(items, why).kept)) <= multiset(Ids(items));
  }

  /** What the filters let through: valid, visible, active items, none of them external in the
      constitution or role layer, no two sharing an id, no two facts contradicting each other. */
  lemma FilteredMeans(rows: seq<Item>, v: View, at: int)
    ensures var kept := Filtered(rows, v, at).kept;
            && (forall i :: i in kept ==>
                  i in rows && Valid(i) && Visible(i, v) && ActiveAt(i, at) && !(i.external && i.layer in {L0, L1}))
            && (forall i, j :: i in kept && j in kept && SameTopic(i, j) ==> i.content == j.content)
            && DistinctIds(kept)
  {
    hide Exclude, Duplicates, Valid, Visible, ActiveAt, SameTopic, DistinctIds, ConflictIds, Targets;
    var a := Exclude(rows, Invalid());
    var b := Exclude(a.kept, Untrusted());
    var c := Exclude(b.kept, Hidden(v));
    var d := Exclude(c.kept, Outdated(c.kept, at));
    var e := Duplicates(d.kept);
    ExcludeKeeps(rows, Invalid());
    ExcludeKeeps(a.kept, Untrusted());
    ExcludeKeeps(b.kept, Hidden(v));
    ExcludeKeeps(c.kept, Outdated(c.kept, at));
    DuplicatesKeep(d.kept);
    ExcludeDistinct(e.kept, Conflicts(e.kept));
    ExcludeKeeps(e.kept, Conflicts(e.kept));
    forall i, j | i in Exclude(e.kept, Conflicts(e.kept)).kept && j in Exclude(e.kept, Conflicts(e.kept)).kept && SameTopic(i, j)
      ensures i.content == j.content
    {
      NoConflicts(e.kept, i, j);
    }
  }

  // ---- which rows pass, said of the rows ----

  /** Valid, not external in the constitution or role layer, and visible to the role. */
  predicate Admitted(i: Item, v: View) {
    Valid(i) && !(i.external && i.layer in {L0, L1}) && Visible(i, v)
  }

  /** Some admitted row, active or not, says that it replaces the item. */
  ghost predicate IsSuperseded(rows: seq<Item>, v: View, i: Item) {
    exists j :: j in rows && Admitted(j, v) && j.supersedes == Some(i.id)
  }

  ghost predicate IsCurrent(rows: seq<Item>, v: View, at: int, i: Item) {
    i in rows && Admitted(i, v) && ActiveAt(i, at) && !IsSuperseded(rows, v, i)
  }

  /** A current row that no other current fact on its topic contradicts. */
  ghost predicate Passes(rows: seq<Item>, v: View, at: int, i: Item) {
    && IsCurrent(rows, v, at, i)
    && forall j :: IsCurrent(rows, v, at, j) && SameTopic(i, j) ==> j.content == i.content
  }

  lemma TargetsAre(items: seq<Item>, x: string)
    ensures x in Targets(items) <==> exists j :: j in items && j.supersedes == Some(x)
  {
    if j :| j in items && j.supersedes == Some(x) {
      var k :| 0 <= k < |items| && items[k] == j;
      assert items[k].supersedes == Some(x);
    }
  }

  lemma {:induction false} NoDuplicates(items: seq<Item>)
    requires DistinctIds(items)
    ensures Duplicates(items) == Stage(items, [])
  {
    if items == [] {
    } else {
      var n := |items| - 1;
      var front, last := items[..n], items[n];
      assert items == front + [last];
      PushItem(front, last);
      assert forall x :: multiset(Ids(front))[x] <= multiset(Ids(items))[x];
      NoDuplicates(front);
      assert last.id !in multiset(Ids(front));
    }
  }

  lemma SameItem(items: seq<Item>, i: Item, j: Item)
    requires DistinctIds(items) && i in items && j in items && i.id == j.id
    ensures i == j
  {
    var a :| 0 <= a < |items| && items[a] == i;
    var b :| 0 <= b < |items| && items[b] == j;
    if a < b { CountedTwice(Ids(items), a, b); } else if b < a { CountedTwice(Ids(items), b, a); }
  }

  lemma CountedTwice(ids: seq<string>, a: nat, b: nat)
    requires a < b < |ids| && ids[a] == ids[b]
    ensures multiset(ids)[ids[a]] >= 2
  {
    Extract(ids, b);
    var rest := ids[..b] + ids[b + 1..];
    assert rest[a] == ids[a] && ids[a] in multiset(rest);
  }

  ghost predicate Contradicted(items: seq<Item>, i: Item) {
    exists j :: j in items && SameTopic(i, j) && j.content != i.content
  }

  lemma ConflictingIff(items: seq<Item>, i: Item)
    requires i in items
    ensures Conflicting(items, i) <==> Contradicted(items, i)
  {
    if Conflicting(items, i) {
      var a, b :| 0 <= a < |items| && 0 <= b < |items| && SameTopic(items[a], i) && SameTopic(items[b], i)
                  && items[a].content != items[b].content;
      assert SameTopic(i, items[a]) && SameTopic(i, items[b]) && items[a] in items && items[b] in items;
    }
    if j :| j in items && SameTopic(i, j) && j.content != i.content {
      var a :| 0 <= a < |items| && items[a] == i;
      var b :| 0 <= b < |items| && items[b] == j;
      assert SameTopic(items[a], i) && SameTopic(items[b], i);
    }
  }

  /** With unique ids, conflict exclusion drops exactly the facts that some fact contradicts. */
  lemma ConflictIff(items: seq<Item>, i: Item)
    requires DistinctIds(items) && i in items
    ensures i.id in ConflictIds(items) <==> Contradicted(items, i)
  {
    hide DistinctIds, Conflicting, Contradicted;
    ConflictingIff(items, i);
    if i.id in ConflictIds(items) {
      var k :| 0 <= k < |items| && Conflicting(items, items[k]) && items[k].id == i.id;
      SameItem(items, items[k], i);
    }
    if Contradicted(items, i) {
      var k :| 0 <= k < |items| && items[k] == i;
    }
  }

  /** What the first three stages let through. */
  lemma AdmittedIff(rows: seq<Item>, v: View)
    ensures var c := Exclude(Exclude(Exclude(rows, Invalid()).kept, Untrusted()).kept, Hidden(v)).kept;
            (forall i :: i in c <==> i in rows && Admitted(i, v)) && (DistinctIds(rows) ==> DistinctIds(c))
  {
    hide Exclude, Valid, Visible, DistinctIds;
    var a := Exclude(rows, Invalid());
    var b := Exclude(a.kept, Untrusted());
    ExcludeKeeps(rows, Invalid());
    ExcludeKeeps(a.kept, Untrusted());
    ExcludeKeeps(b.kept, Hidden(v));
    if DistinctIds(rows) {
      ExcludeDistinct(rows, Invalid());
      ExcludeDistinct(a.kept, Untrusted());
      ExcludeDistinct(b.kept, Hidden(v));
    }
  }

  lemma CurrentIff(rows: seq<Item>, v: View, at: int, c: seq<Item>, i: Item)
    requires forall j :: j in c <==> j in rows && Admitted(j, v)
    ensures i in Exclude(c, Outdated(c, at)).kept <==> IsCurrent(rows, v, at, i)
  {
    hide Exclude, Admitted, Targets;
    ExcludeKeeps(c, Outdated(c, at));
    TargetsAre(c, i.id);
  }

  /** With unique ids, a row passes the filters iff it is current and uncontradicted. */
  lemma FilteredIff(rows: seq<Item>, v: View, at: int, i: Item)
    requires DistinctIds(rows)
    ensures i in Filtered(rows, v, at).kept <==> Passes(rows, v, at, i)
  {
    hide Exclude, Duplicates, DistinctIds, IsCurrent, SameTopic, ConflictIds, Admitted, Outdated, Hidden, Untrusted, Invalid;
    var c := Exclude(Exclude(Exclude(rows, Invalid()).kept, Untrusted()).kept, Hidden(v)).kept;
    AdmittedIff(rows, v);
    var d := Exclude(c, Outdated(c, at)).kept;
    forall j ensures j in d <==> IsCurrent(rows, v, at, j) { CurrentIff(rows, v, at, c, j); }
    ExcludeDistinct(c, Outdated(c, at));
    NoDuplicates(d);
    ExcludeKeeps(d, Conflicts(d));
    if i in d { ConflictIff(d, i); }
  }
}
