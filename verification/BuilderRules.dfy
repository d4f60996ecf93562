// The rules of the context builder, said of the fields of the items: why a row is left out,
// what is kept first when not everything fits, and what a summary says.

module BuilderRules {
  import opened Common
  import opened Lists
  import opened Ordering
  import opened Greedy
  import opened BuilderStages
  import opened ContextBuilder

  // ---- what is kept first ----

  /** A file that can be read again and costs more than 500 tokens. */
  predicate Large(i: Item) {
    i.fromFile && i.tokens > 500
  }

  /** An observation goes before a large file, and a large file before the rest. */
  predicate LessExpendable(a: Item, b: Item) {
    || (a.kind != Observation && b.kind == Observation)
    || (a.kind != Observation && !Large(a) && b.kind != Observation && Large(b))
  }

  predicate AsExpendable(a: Item, b: Item) {
    if a.kind == Observation then b.kind == Observation else b.kind != Observation && Large(a) == Large(b)
  }

  /** Kept rather: the less expendable; then the higher priority; then the later; then the one
      with the larger id. */
  predicate Outranks(a: Item, b: Item) {
    || LessExpendable(a, b)
    || (AsExpendable(a, b) && a.priority > b.priority)
    || (AsExpendable(a, b) && a.priority == b.priority && a.validFrom > b.validFrom)
    || (AsExpendable(a, b) && a.priority == b.priority && a.validFrom == b.validFrom && Ordering.Before(b.id, a.id))
  }

  lemma KeepsIff(a: Item, b: Item)
    ensures Keeps(a, b) <==> Outranks(a, b)
  {
    var k, l := KeepKey(b), KeepKey(a);
    LexHead(k, l);
    LexHead(k[1..], l[1..]);
    LexHead(k[2..], l[2..]);
    assert k[1..][1..] == k[2..] && l[1..][1..] == l[2..];
    assert k[2..][1..] == Codes(b.id) && l[2..][1..] == Codes(a.id);
    hide LexLess, Codes;
  }

  lemma TokensNat(items: seq<Item>)
    requires forall i :: i in items ==> 0 <= i.tokens
    ensures 0 <= Tokens(items)
  {
    TokensAtLeast(items);
  }

  lemma {:induction false} TokensAtLeast(items: seq<Item>)
    requires forall i :: i in items ==> 0 <= i.tokens
    ensures 0 <= Tokens(items)
  {
    if items != [] {
      var n := |items| - 1;
      assert items == items[..n] + [items[n]];
      TokensAtLeast(items[..n]);
      TokensPush(items[..n], items[n]);
    }
  }

  /** What is ahead of the higher-ranked of two is ahead of the other. */
  lemma {:induction false} AheadGrows(chosen: seq<Item>, a: Item, b: Item)
    requires StrictOrder(Keeps) && Keeps(a, b) && forall i :: i in chosen ==> 0 <= i.tokens
    ensures Tokens(Ahead(chosen, a, Keeps)) <= Tokens(Ahead(chosen, b, Keeps))
  {
    hide Keeps;
    if chosen != [] {
      var n := |chosen| - 1;
      var front, last := chosen[..n], chosen[n];
      assert chosen == front + [last];
      AheadGrows(front, a, b);
      AheadTokens(front, last, a);
      AheadTokens(front, last, b);
      hide Ahead, Tokens;
      assert Keeps(last, a) ==> Keeps(last, b);
    }
  }

  lemma AheadTokens(front: seq<Item>, last: Item, x: Item)
    ensures Tokens(Ahead(front + [last], x, Keeps)) == Tokens(Ahead(front, x, Keeps)) + if Keeps(last, x) then last.tokens else 0
  {
    hide Keeps;
    assert (front + [last])[..|front|] == front;
    TokensPush(Ahead(front, x, Keeps), last);
    assert Ahead(front, x, Keeps) + [] == Ahead(front, x, Keeps);
  }

  /** When not everything fits, an unprotected item that is kept does not displace one that
      outranks it and costs no more. */
  lemma NoneDisplaced(items: seq<Item>, usable: int, a: Item, b: Item)
    requires DistinctIds(items) && a in items && b in items && Tokens(items) > usable && Select(items, usable).Fits?
    requires forall i :: i in items ==> 0 <= i.tokens
    requires !Protected(a) && !Protected(b) && Outranks(a, b) && a.tokens <= b.tokens
    ensures b in Select(items, usable).value.kept ==> a in Select(items, usable).value.kept
  {
    SelectIff(items, usable, a);
    SelectIff(items, usable, b);
    KeepsOrders(items);
    KeepsIff(a, b);
    var kept := Filter(items, Protected);
    var chosen := Greedy.Greedy(Ranked(items), Fitting(usable, Tokens(kept)));
    hide Outranks, Keeps, Protected, DistinctIds, Ahead, Tokens;
    ChosenFrom(items, usable);
    AheadGrows(chosen, a, b);
  }

  lemma ChosenFrom(items: seq<Item>, usable: int)
    requires forall i :: i in items ==> 0 <= i.tokens
    ensures forall i :: i in Greedy.Greedy(Ranked(items), Fitting(usable, Tokens(Filter(items, Protected)))) ==> 0 <= i.tokens
  {
    SplitProtected(items);
    hide Protected, Keeps, Ranked, Tokens, Fitting;
    GreedyPart(Ranked(items), Fitting(usable, Tokens(Filter(items, Protected))));
  }

  lemma {:induction false} GreedyPart(xs: seq<Item>, fits: (seq<Item>, Item) -> bool)
    ensures forall x :: x in Greedy.Greedy(xs, fits) ==> x in xs
  {
    if xs != [] { GreedyPart(xs[..|xs| - 1], fits); }
  }

  // ---- why a row is left out ----

  /** A row the store may hold: known words, a scope, a window that is not empty. */
  predicate WellFormed(i: Item) {
    && i.known && i.validFrom >= 0 && i.tokens >= 0 && |i.scope| > 0
    && match i.validTo
       case None => true
       case Some(end) => i.validFrom < end
  }

  /** What a role sees: what is shared, what is its own, and a worker what is of its task. */
  predicate Sees(v: View, i: Item) {
    || Shared in i.scope
    || match v.role
       case Coordinator => CoordinatorScope in i.scope
       case Reviewer => ReviewerScope in i.scope
       case Worker => v.task.Some? && WorkerScope(v.task.value) in i.scope
  }

  predicate InWindow(i: Item, at: int) {
    i.validFrom <= at && match i.validTo case None => true case Some(end) => at < end
  }

  /** An external row in the constitution or the role layer. */
  predicate Intrudes(i: Item) {
    i.external && (i.layer == L0 || i.layer == L1)
  }

  predicate Seen(v: View, i: Item) {
    WellFormed(i) && !Intrudes(i) && Sees(v, i)
  }

  lemma SeesIff(v: View, i: Item)
    ensures Visible(i, v) <==> Sees(v, i)
  {
    var own := match v.role
      case Coordinator => CoordinatorScope
      case Reviewer => ReviewerScope
      case Worker => if v.task.Some? then WorkerScope(v.task.value) else Shared;
    if own in i.scope { var k :| 0 <= k < |i.scope| && i.scope[k] == own; }
    if Shared in i.scope { var k :| 0 <= k < |i.scope| && i.scope[k] == Shared; }
  }

  lemma SeenIff(v: View, i: Item)
    ensures Admitted(i, v) <==> Seen(v, i)
  {
    SeesIff(v, i);
    hide Sees, Visible;
  }

  /** A row that is seen says it replaces the item, whether or not it is active itself. */
  ghost predicate Replaced(rows: seq<Item>, v: View, i: Item) {
    exists j :: j in rows && Seen(v, j) && j.supersedes == Some(i.id)
  }

  ghost predicate Current(rows: seq<Item>, v: View, at: int, i: Item) {
    i in rows && Seen(v, i) && InWindow(i, at) && !Replaced(rows, v, i)
  }

  /** Another current fact of the same layer and task says something else. */
  ghost predicate Disputed(rows: seq<Item>, v: View, at: int, i: Item) {
    exists j ::
      && Current(rows, v, at, j) && i.kind == Fact && j.kind == Fact && i.layer == j.layer && i.task == j.task
      && i.content != j.content
  }

  /** Why the filters leave a row out: the first of the reasons in this order. */
  ghost predicate LeftOutFor(rows: seq<Item>, v: View, at: int, i: Item, reason: Reason) {
    match reason
    case TrustViolation => !WellFormed(i) || Intrudes(i)
    case ScopeMismatch => WellFormed(i) && !Intrudes(i) && !Sees(v, i)
    case Expired => Seen(v, i) && !InWindow(i, at)
    case Superseded => Seen(v, i) && InWindow(i, at) && Replaced(rows, v, i)
    case ConflictingFacts => Current(rows, v, at, i) && Disputed(rows, v, at, i)
    case _ => false
  }

  lemma {:induction false} ExcludedFor(items: seq<Item>, why: Why, id: string, reason: Reason)
    ensures Exclusion(id, reason) in Exclude(items, why).excluded <==> exists i :: i in items && i.id == id && why(i) == Some(reason)
  {
    if items != [] {
      var n := |items| - 1;
      assert items == items[..n] + [items[n]];
      ExcludedFor(items[..n], why, id, reason);
    }
  }

  lemma CurrentSame(rows: seq<Item>, v: View, at: int, i: Item)
    ensures IsCurrent(rows, v, at, i) <==> Current(rows, v, at, i)
    ensures IsSuperseded(rows, v, i) <==> Replaced(rows, v, i)
  {
    ActiveIff(i, at);
    forall j ensures Admitted(j, v) <==> Seen(v, j) { SeenIff(v, j); }
    hide Admitted, Seen;
  }

  /** With unique ids, an exclusion names the row itself. */
  lemma ExcludesItself(rows: seq<Item>, items: seq<Item>, why: Why, i: Item, reason: Reason)
    requires DistinctIds(rows) && i in rows && forall j :: j in items ==> j in rows
    ensures Exclusion(i.id, reason) in Exclude(items, why).excluded <==> i in items && why(i) == Some(reason)
  {
    ExcludedFor(items, why, i.id, reason);
    hide Exclude, DistinctIds;
    if j :| j in items && j.id == i.id && why(j) == Some(reason) { SameItem(rows, i, j); }
  }

  lemma FirstReasons(rows: seq<Item>, v: View, i: Item, reason: Reason)
    requires DistinctIds(rows) && i in rows
    ensures var a := Exclude(rows, Invalid());
            var b := Exclude(a.kept, Untrusted());
            var c := Exclude(b.kept, Hidden(v));
            && (Exclusion(i.id, reason) in a.excluded <==> reason == TrustViolation && !WellFormed(i))
            && (Exclusion(i.id, reason) in b.excluded <==> reason == TrustViolation && WellFormed(i) && Intrudes(i))
            && (Exclusion(i.id, reason) in c.excluded <==> reason == ScopeMismatch && WellFormed(i) && !Intrudes(i) && !Sees(v, i))
  {
    var a := Exclude(rows, Invalid());
    var b := Exclude(a.kept, Untrusted());
    ExcludeKeeps(rows, Invalid());
    ExcludeKeeps(a.kept, Untrusted());
    SeesIff(v, i);
    hide Exclude, DistinctIds, Visible, Sees;
    ExcludesItself(rows, rows, Invalid(), i, reason);
    ExcludesItself(rows, a.kept, Untrusted(), i, reason);
    ExcludesItself(rows, b.kept, Hidden(v), i, reason);
  }

  lemma ActiveIff(i: Item, at: int)
    ensures ActiveAt(i, at) <==> InWindow(i, at)
  {
  }

  lemma LifeReasons(rows: seq<Item>, v: View, at: int, c: seq<Item>, i: Item, reason: Reason)
    requires DistinctIds(rows) && i in rows && forall j :: j in c <==> j in rows && Admitted(j, v)
    ensures Exclusion(i.id, reason) in Exclude(c, Outdated(c, at)).excluded
            <==> Seen(v, i) && ((reason == Expired && !InWindow(i, at)) || (reason == Superseded && InWindow(i, at) && Replaced(rows, v, i)))
  {
    ExcludesItself(rows, c, Outdated(c, at), i, reason);
    TargetsAre(c, i.id);
    CurrentSame(rows, v, at, i);
    SeenIff(v, i);
    ActiveIff(i, at);
    hide Exclude, DistinctIds, Admitted, Seen, Replaced, ActiveAt, InWindow, Targets;
  }

  lemma DisputedIff(rows: seq<Item>, v: View, at: int, d: seq<Item>, i: Item)
    requires forall j :: j in d <==> IsCurrent(rows, v, at, j)
    ensures i in d ==> (Contradicted(d, i) <==> Disputed(rows, v, at, i))
    ensures i in d <==> Current(rows, v, at, i)
  {
    forall j ensures j in d <==> Current(rows, v, at, j) { CurrentSame(rows, v, at, j); }
    hide IsCurrent, Current;
    if Contradicted(d, i) {
      var j :| j in d && SameTopic(i, j) && j.content != i.content;
      assert Current(rows, v, at, j);
    }
    if i in d && Disputed(rows, v, at, i) {
      var j :| Current(rows, v, at, j) && i.kind == Fact && j.kind == Fact && i.layer == j.layer && i.task == j.task
               && i.content != j.content;
      assert SameTopic(i, j);
    }
  }

  lemma DisputeReasons(rows: seq<Item>, v: View, at: int, d: seq<Item>, i: Item, reason: Reason)
    requires DistinctIds(rows) && DistinctIds(d) && i in rows && forall j :: j in d <==> IsCurrent(rows, v, at, j)
    ensures var f := Exclude(d, Conflicts(d));
            && (Exclusion(i.id, reason) in f.excluded
                <==> reason == ConflictingFacts && Current(rows, v, at, i) && Disputed(rows, v, at, i))
            && (i in f.kept <==> Current(rows, v, at, i) && !Disputed(rows, v, at, i))
  {
    ExcludesItself(rows, d, Conflicts(d), i, reason);
    ExcludeKeeps(d, Conflicts(d));
    DisputedIff(rows, v, at, d, i);
    if i in d { ConflictIff(d, i); }
    hide Exclude, DistinctIds, IsCurrent, Current, Disputed, Contradicted, ConflictIds;
  }

  /** The outcome of the filters for one row of a table with unique ids: it passes iff it is
      current and undisputed, and otherwise it is left out for the first reason that holds. */
  lemma WhyLeftOut(rows: seq<Item>, v: View, at: int, i: Item, reason: Reason)
    requires DistinctIds(rows) && i in rows
    ensures Exclusion(i.id, reason) in Filtered(rows, v, at).excluded <==> LeftOutFor(rows, v, at, i, reason)
    ensures i in Filtered(rows, v, at).kept <==> Current(rows, v, at, i) && !Disputed(rows, v, at, i)
  {
    var c := Exclude(Exclude(Exclude(rows, Invalid()).kept, Untrusted()).kept, Hidden(v)).kept;
    var d := Exclude(c, Outdated(c, at)).kept;
    AdmittedIff(rows, v);
    forall j ensures j in d <==> IsCurrent(rows, v, at, j) { CurrentIff(rows, v, at, c, j); }
    hide Exclude, Duplicates, DistinctIds, IsCurrent, Admitted, Outdated, Hidden, Untrusted, Invalid, Conflicts, Current, Disputed, Seen, WellFormed, Intrudes, Sees, InWindow, Replaced;
    ExcludeDistinct(c, Outdated(c, at));
    NoDuplicates(d);
    FirstReasons(rows, v, i, reason);
    LifeReasons(rows, v, at, c, i, reason);
    DisputeReasons(rows, v, at, d, i, reason);
    CurrentParts(rows, v, at, i);
  }

  lemma CurrentParts(rows: seq<Item>, v: View, at: int, i: Item)
    requires i in rows
    ensures Current(rows, v, at, i) <==> Seen(v, i) && InWindow(i, at) && !Replaced(rows, v, i)
    ensures Seen(v, i) <==> WellFormed(i) && !Intrudes(i) && Sees(v, i)
  {
  }

  // ---- the budget ----

  /** Never dropped for budget: the top layers, constraints, evidence, and todos without an end. */
  predicate NotForSale(i: Item) {
    || i.layer == L0 || i.layer == L1
    || i.kind == Constraint || i.kind == EvidenceRef
    || (i.kind == Todo && match i.validTo case None => true case Some(_) => false)
  }

  lemma NotForSaleIff(i: Item)
    ensures Protected(i) <==> NotForSale(i)
  {
  }

  /** A snapshot holds every current, undisputed row that is not for sale. */
  lemma NeverDropped(rows: seq<Item>, v: View, usable: int, at: int, digest: seq<string> -> string, i: Item)
    requires DistinctIds(rows) && Build(rows, v, usable, at, digest).Fits?
    requires Current(rows, v, at, i) && !Disputed(rows, v, at, i) && NotForSale(i)
    ensures i in Build(rows, v, usable, at, digest).value.items
  {
    SelectedIff(rows, v, usable, at, digest, i);
    CurrentIsRow(rows, v, at, i);
    WhyLeftOut(rows, v, at, i, Expired);
    FilteredIff(rows, v, at, i);
    NotForSaleIff(i);
    hide Build, Filtered, Current, Disputed, Passes, Protected, NotForSale, DistinctIds, Select;
    StaysProtected(Filtered(rows, v, at).kept, usable, i);
  }

  lemma CurrentIsRow(rows: seq<Item>, v: View, at: int, i: Item)
    requires Current(rows, v, at, i)
    ensures i in rows
  {
  }

  lemma StaysProtected(items: seq<Item>, usable: int, i: Item)
    requires Protected(i)
    ensures Stays(items, usable, i)
  {
    hide Protected;
  }

  /** A build that fails says what the rows that are not for sale cost, and the budget they do not
      fit into. */
  lemma FailureReports(rows: seq<Item>, v: View, usable: int, at: int, digest: seq<string> -> string)
    requires DistinctIds(rows) && Build(rows, v, usable, at, digest).Exhausted?
    ensures var f := Build(rows, v, usable, at, digest);
            f.usable == usable && f.required == Tokens(Filter(Filtered(rows, v, at).kept, NotForSale)) && f.required > usable
  {
    var items := Filtered(rows, v, at).kept;
    BuildFailsIff(rows, v, usable, at, digest);
    FilteredTokens(rows, v, at);
    SelectFailsIff(items, usable);
    TokensSplit(items);
    SameProtected(items);
    hide Filtered, Compact, Tokens, Filter;
  }

  lemma {:induction false} SameProtected(items: seq<Item>)
    ensures Filter(items, Protected) == Filter(items, NotForSale)
  {
    if items != [] {
      SameProtected(items[..|items| - 1]);
      NotForSaleIff(items[|items| - 1]);
      hide Protected, NotForSale;
    }
  }

  /** A row that passes the filters and is not in the snapshot is excluded for the budget, and
      only such a row is. */
  lemma OverflowIff(rows: seq<Item>, v: View, usable: int, at: int, digest: seq<string> -> string, i: Item)
    requires DistinctIds(rows) && i in rows && Build(rows, v, usable, at, digest).Fits?
    ensures var r := Build(rows, v, usable, at, digest).value;
            && |r.summaries| <= |r.items|
            && (Exclusion(i.id, BudgetOverflow) in r.excluded
                <==> Current(rows, v, at, i) && !Disputed(rows, v, at, i) && i !in r.items[..|r.items| - |r.summaries|])
  {
    hide *;
    var items := Filtered(rows, v, at).kept;
    BuildIs(rows, v, usable, at, digest);
    WhyLeftOut(rows, v, at, i, BudgetOverflow);
    NoSuchReason(rows, v, at, i);
    FilteredTokens(rows, v, at);
    SelectOverflows(rows, items, usable, i);
    var r := Build(rows, v, usable, at, digest).value;
    NotesAreNotes(r.summaries, i.id);
    assert r.items[..|r.items| - |r.summaries|] == Select(items, usable).value.kept;
  }

  lemma NoSuchReason(rows: seq<Item>, v: View, at: int, i: Item)
    ensures !LeftOutFor(rows, v, at, i, BudgetOverflow)
  {
  }

  lemma NotesAreNotes(summaries: seq<Item>, id: string)
    ensures Exclusion(id, BudgetOverflow) !in Map(summaries, SummaryNote)
  {
  }

  lemma SelectOverflows(rows: seq<Item>, items: seq<Item>, usable: int, i: Item)
    requires DistinctIds(rows) && DistinctIds(items) && multiset(items) <= multiset(rows) && i in rows && Select(items, usable).Fits?
    ensures Exclusion(i.id, BudgetOverflow) in Select(items, usable).value.excluded
            <==> i in items && i !in Select(items, usable).value.kept
  {
    SelectAccounts(items, usable);
    RefusedByAre(items, usable);
    SameElements(items, rows);
    var out := RefusedBy(items, usable);
    var s := Select(items, usable).value;
    hide Select, RefusedBy, Protected;
    SameElements(out, items);
    SameElements(s.kept, items);
    RefusedNamed(rows, out, i);
    Apart(items, s.kept, out, i);
  }

  lemma RefusedNamed(rows: seq<Item>, out: seq<Item>, i: Item)
    requires DistinctIds(rows) && i in rows && forall j :: j in out ==> j in rows
    ensures Exclusion(i.id, BudgetOverflow) in Map(out, OverBudget) <==> i in out
  {
    hide DistinctIds;
    var m := Map(out, OverBudget);
    if Exclusion(i.id, BudgetOverflow) in m {
      var k :| 0 <= k < |m| && m[k] == Exclusion(i.id, BudgetOverflow);
      SameItem(rows, out[k], i);
    }
    if i in out {
      var k :| 0 <= k < |out| && out[k] == i;
      assert m[k] == Exclusion(i.id, BudgetOverflow);
    }
  }

  /** Of items with unique ids that are kept or refused, one is refused iff it is not kept. */
  lemma Apart(items: seq<Item>, kept: seq<Item>, out: seq<Item>, i: Item)
    requires DistinctIds(items) && Accounts(items, Stage(kept, Map(out, OverBudget)))
    requires forall j :: j in out || j in kept ==> j in items
    ensures i in out <==> i in items && i !in kept
  {
    OverBudgetIds(out);
    var ids := multiset(Ids(items));
    assert ids == multiset(Ids(kept)) + multiset(Ids(out));
    if i in items { CountedOnce(items, i); }
    if i in kept { CountedOnce(kept, i); }
    if i in out { CountedOnce(out, i); }
    if i in items && i !in kept && i.id in multiset(Ids(kept)) {
      var k :| 0 <= k < |kept| && Ids(kept)[k] == i.id;
      assert kept[k] in kept;
      SameItem(items, kept[k], i);
    }
    if i in items && i !in out && i.id in multiset(Ids(out)) {
      var k :| 0 <= k < |out| && Ids(out)[k] == i.id;
      assert out[k] in out;
      SameItem(items, out[k], i);
    }
  }

  // ---- summaries ----

  /** Sixteen rows to a summary, the last one taking what is left. */
  lemma {:induction false} SixteenEach(items: seq<Item>)
    ensures var c := Chunks(items);
            && 16 * |c| >= |items| && (c != [] ==> 16 * (|c| - 1) < |items|)
            && forall k :: 0 <= k < |c| ==>
                 c[k] == items[16 * k..if 16 * k + 16 <= |items| then 16 * k + 16 else |items|]
    decreases |items|
  {
    if |items| > 16 {
      var rest, c := items[16..], Chunks(items);
      SixteenEach(rest);
      assert c == [items[..16]] + Chunks(rest);
      forall k | 0 < k < |c|
        ensures c[k] == items[16 * k..if 16 * k + 16 <= |items| then 16 * k + 16 else |items|]
      {
        assert c[k] == Chunks(rest)[k - 1];
      }
    }
  }

  function Value(digits: string): int {
    if digits == [] then 0 else 10 * Value(digits[..|digits| - 1]) + (digits[|digits| - 1] as int - '0' as int)
  }

  /** A count is written in decimal, without leading zeros. */
  lemma {:induction false} DigitsAre(n: nat)
    ensures Value(Digits(n)) == n && (forall i :: 0 <= i < |Digits(n)| ==> '0' <= Digits(n)[i] <= '9')
    ensures Digits(n) != [] && (n > 0 ==> Digits(n)[0] != '0')
  {
    if n < 10 {
      assert Digits(n)[..0] == [];
    } else {
      DigitsAre(n / 10);
      assert Digits(n)[..|Digits(n)| - 1] == Digits(n / 10);
    }
  }

  /** What is quoted of an item: all of it, or its first 80 characters. */
  predicate Quotes(quote: string, content: string) {
    quote <= content && |quote| == if |content| <= 80 then |content| else 80
  }

  /** Quoted from a chunk, in order, up to 400 characters in all, and no further than the first
      item that would exceed them. */
  ghost predicate Quoted(chunk: seq<Item>, used: nat, quotes: seq<string>) {
    && |quotes| <= |chunk|
    && (forall k :: 0 <= k < |quotes| ==> Quotes(quotes[k], chunk[k].content))
    && used + Sum(Lengths(quotes)) <= 400
    && (|quotes| < |chunk| ==> forall next :: Quotes(next, chunk[|quotes|].content) ==> used + Sum(Lengths(quotes)) + |next| > 400)
  }

  lemma {:induction false} SnippetsAre(chunk: seq<Item>, used: nat)
    requires used <= 400
    ensures Quoted(chunk, used, Snippets(chunk, used))
  {
    assert Lengths([]) == [];
    if chunk != [] {
      var first := Prefix(chunk[0].content, 80);
      assert Quotes(first, chunk[0].content);
      if used + |first| <= 400 {
        SnippetsAre(chunk[1..], used + |first|);
        hide Quotes;
        QuotedMore(chunk, used, first, Snippets(chunk[1..], used + |first|));
      }
    }
  }

  lemma QuotedMore(chunk: seq<Item>, used: nat, first: string, rest: seq<string>)
    requires chunk != [] && Quotes(first, chunk[0].content) && Quoted(chunk[1..], used + |first|, rest)
    ensures Quoted(chunk, used, [first] + rest)
  {
    hide Quotes;
    assert Lengths([first] + rest) == [|first|] + Lengths(rest);
    SumConcat([|first|], Lengths(rest));
    assert Sum([|first|]) == |first|;
    assert |rest| < |chunk| - 1 ==> chunk[1..][|rest|] == chunk[|rest| + 1];
  }

  /** A summary is an unprotected observation of this moment that every role sees; it costs one
      token for every four bytes begun and names what it was made of, in order. */
  lemma SummaryIs(chunk: seq<Item>, at: int, digest: seq<string> -> string)
    requires 0 <= at
    ensures var s := Summary(chunk, at, digest);
            && WellFormed(s) && (forall v :: Sees(v, s)) && InWindow(s, at) && !NotForSale(s) && !Intrudes(s)
            && s.kind == Observation && s.validFrom == at && s.validTo.None? && s.supersedes.None? && s.priority == 0
            && s.compacted == Ids(chunk)
            && ByteLength(s.content) <= 4 * s.tokens < ByteLength(s.content) + 4
  {
    hide SummaryContent, ByteLength;
  }

  /** The id of a summary depends on which items it is made of, not on their order. */
  lemma SummaryIdIgnoresOrder(a: seq<Item>, b: seq<Item>, at: int, later: int, digest: seq<string> -> string)
    requires multiset(a) == multiset(b) && DistinctIds(a)
    ensures Summary(a, at, digest).id == Summary(b, later, digest).id
  {
    IdsPermuted(a, b);
    BeforeOrders(Ids(a));
    hide SummaryContent, Estimate;
    SortCanonical(Ids(a), Ids(b), Ordering.Before);
  }

}
