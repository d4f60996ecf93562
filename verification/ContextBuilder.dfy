// The context builder: greedy selection within the budget, compaction of what was evicted
// into summaries, and the snapshot.

module ContextBuilder {
  import opened Common
  import opened Lists
  import opened Ordering
  import opened Greedy
  import opened BuilderStages

  const LARGE_FILE := 500
  const CHUNK := 16

  datatype Outcome<+T> = Fits(value: T) | Exhausted(required: int, usable: int)

  function TokensOf(i: Item): int { i.tokens }

  function Tokens(items: seq<Item>): int {
    Sum(Map(items, TokensOf))
  }

  // ---- selection ----

  /** Observations go first, then large files; then low priority, then old, then by id. */
  function KeepKey(i: Item): seq<int> {
    [if i.kind == Observation then 0 else if i.fromFile && i.tokens > LARGE_FILE then 1 else 2, i.priority, i.validFrom]
    + Codes(i.id)
  }

  predicate Keeps(a: Item, b: Item) {
    LexLess(KeepKey(b), KeepKey(a))
  }

  predicate Evictable(i: Item) {
    !Protected(i)
  }

  /** An item fits after the protected items and the given kept ones. */
  function Fitting(usable: int, protectedTokens: int): (seq<Item>, Item) -> bool {
    (before: seq<Item>, i: Item) => protectedTokens + Tokens(before) + i.tokens <= usable
  }

  function Ranked(items: seq<Item>): seq<Item> {
    Sort(Filter(items, Evictable), Keeps)
  }

  function Refused(usable: int, protectedTokens: int, ranked: seq<Item>): seq<Item> {
    if ranked == [] then []
    else
      var n := |ranked| - 1;
      Refused(usable, protectedTokens, ranked[..n])
      + if Fitting(usable, protectedTokens)(Greedy.Greedy(ranked[..n], Fitting(usable, protectedTokens)), ranked[n])
        then [] else [ranked[n]]
  }

  function OverBudget(i: Item): Exclusion {
    Exclusion(i.id, BudgetOverflow)
  }

  function Select(items: seq<Item>, usable: int): Outcome<Stage> {
    if Tokens(items) <= usable then Fits(Stage(items, []))
    else
      var kept := Filter(items, Protected);
      if Tokens(kept) > usable then Exhausted(Tokens(kept), usable)
      else
        Fits(Stage(kept + Greedy.Greedy(Ranked(items), Fitting(usable, Tokens(kept))),
                   Map(Refused(usable, Tokens(kept), Ranked(items)), OverBudget)))
  }

  // ---- compaction ----

  function Digits(n: nat): string {
    if n < 10 then [('0' as int + n) as char] else Digits(n / 10) + [('0' as int + n % 10) as char]
  }

  function ByteLength(s: string): nat {
    if s == [] then 0
    else
      var n := s[0] as int;
      (if n < 0x80 then 1 else if n < 0x800 then 2 else if n < 0x10000 then 3 else 4) + ByteLength(s[1..])
  }

  /** One token for every four bytes begun. */
  function Estimate(content: string): nat {
    (ByteLength(content) + 3) / 4
  }

  /** The first 80 characters of each item, as long as they fit in 400. */
  function Snippets(chunk: seq<Item>, used: nat): seq<string> {
    if chunk == [] then []
    else
      var s := Prefix(chunk[0].content, 80);
      if used + |s| > 400 then [] else [s] + Snippets(chunk[1..], used + |s|)
  }

  function SummaryContent(chunk: seq<Item>): string {
    "[compacted " + Digits(|chunk|) + " observations: " + Join(Ids(chunk), ", ") + "] snippets: "
    + Join(Snippets(chunk, 0), " | ")
  }

  /** The summary of a chunk; digest stands for the hash of the sorted source ids. */
  function Summary(chunk: seq<Item>, at: int, digest: seq<string> -> string): Item {
    Item("summary-" + digest(Sort(Ids(chunk), Ordering.Before)), L4, Observation, SummaryContent(chunk), false, false, 0,
         [Shared], at, None, None, Estimate(SummaryContent(chunk)), None, true,
         "compaction:" + Join(Ids(chunk), ","), Ids(chunk))
  }

  /** Chunks of at most 16, in order. */
  function Chunks(items: seq<Item>): seq<seq<Item>>
    decreases |items|
  {
    if items == [] then []
    else if |items| <= CHUNK then [items]
    else [items[..CHUNK]] + Chunks(items[CHUNK..])
  }

  function Summaries(chunks: seq<seq<Item>>, at: int, digest: seq<string> -> string): (r: seq<Item>)
    ensures |r| == |chunks|
    ensures forall k :: 0 <= k < |chunks| ==> r[k] == Summary(chunks[k], at, digest)
  {
    seq(|chunks|, k requires 0 <= k < |chunks| => Summary(chunks[k], at, digest))
  }

  datatype Compacted = Compacted(final: seq<Item>, summaries: seq<Item>, absorbed: seq<Item>, stillOver: bool)

  /** Evicted items become summaries; a protected one among them would be restored. */
  function Compact(kept: seq<Item>, evicted: seq<Item>, usable: int, at: int, digest: seq<string> -> string): Compacted {
    if evicted == [] then Compacted(kept, [], [], false)
    else
      var eligible := Filter(evicted, Evictable);
      var base := kept + Filter(evicted, Protected);
      var summaries := Summaries(Chunks(eligible), at, digest);
      Compacted(base + summaries, summaries, eligible, Tokens(base + summaries) > usable)
  }

  // ---- the snapshot ----

  datatype Snapshot = Snapshot(items: seq<Item>, summaries: seq<Item>, excluded: seq<Exclusion>, tokens: int)

  function Evicted(rows: seq<Item>, excluded: seq<Exclusion>): seq<Item> {
    Filter(rows, Named(ExcludedIds(excluded)))
  }

  function Named(ids: seq<string>): Item -> bool {
    (i: Item) => i.id in ids
  }

  function SummaryNote(i: Item): Exclusion {
    Exclusion(i.id, CompactionSummary)
  }

  /** build: filter, select, compact what was evicted, and check the budget again. */
  function Build(rows: seq<Item>, v: View, usable: int, at: int, digest: seq<string> -> string): Outcome<Snapshot> {
    var f := Filtered(rows, v, at);
    match Select(f.kept, usable)
    case Exhausted(required, u) => Exhausted(required, u)
    case Fits(s) =>
      if s.excluded == [] then Fits(Snapshot(s.kept, [], f.excluded, Tokens(s.kept)))
      else
        var c := Compact(s.kept, Evicted(rows, s.excluded), usable, at, digest);
        var required := Tokens(Filter(c.final, Protected));
        if (c.stillOver || Tokens(c.final) > usable) && required > usable then Exhausted(required, usable)
        else
          Fits(Snapshot(c.final, c.summaries, f.excluded + s.excluded + Map(c.summaries, SummaryNote), Tokens(c.final)))
  }

  // ---- what selection does ----

  lemma TokensPush(items: seq<Item>, i: Item)
    ensures Tokens(items + [i]) == Tokens(items) + i.tokens
  {
    var m := Map(items + [i], TokensOf);
    assert m[..|items|] == Map(items, TokensOf);
  }

  lemma NoTokens(items: seq<Item>)
    requires items == []
    ensures Tokens(items) == 0
  {
  }

  lemma TokensConcat(a: seq<Item>, b: seq<Item>)
    ensures Tokens(a + b) == Tokens(a) + Tokens(b)
  {
    assert Map(a + b, TokensOf) == Map(a, TokensOf) + Map(b, TokensOf);
    SumConcat(Map(a, TokensOf), Map(b, TokensOf));
  }

  lemma KeepKeyNames(a: Item, b: Item)
    requires KeepKey(a) == KeepKey(b)
    ensures a.id == b.id
  {
    assert Codes(a.id) == KeepKey(a)[3..];
    assert Codes(b.id) == KeepKey(b)[3..];
    CodesInjective(a.id, b.id);
  }

  /** The keep order is strict and separates items with different ids. */
  lemma KeepsOrders(items: seq<Item>)
    requires DistinctIds(items)
    ensures StrictOrder(Keeps) && Separates(multiset(items), Keeps)
  {
    forall a, b, c | Keeps(a, b) && Keeps(b, c) ensures Keeps(a, c) { LexTransitive(KeepKey(c), KeepKey(b), KeepKey(a)); }
    forall a, b | Keeps(a, b) ensures !Keeps(b, a) { LexTrichotomy(KeepKey(a), KeepKey(b)); }
    forall a, b | a in multiset(items) && b in multiset(items) && a != b ensures Keeps(a, b) || Keeps(b, a) {
      if KeepKey(a) == KeepKey(b) {
        KeepKeyNames(a, b);
        SameItem(items, a, b);
      }
      LexTrichotomy(KeepKey(a), KeepKey(b));
    }
  }

  lemma RefusedPush(kept: seq<Item>, refused: seq<Item>, last: Item, fits: (seq<Item>, Item) -> bool)
    ensures multiset(Visit(kept, last, fits)) + multiset(refused + if fits(kept, last) then [] else [last])
            == multiset(kept) + multiset(refused) + multiset{last}
  {
  }

  lemma {:induction false} RefusedRest(usable: int, protectedTokens: int, ranked: seq<Item>)
    ensures multiset(Greedy.Greedy(ranked, Fitting(usable, protectedTokens))) + multiset(Refused(usable, protectedTokens, ranked))
            == multiset(ranked)
  {
    hide Fitting, Visit;
    if ranked != [] {
      var front, last := ranked[..|ranked| - 1], ranked[|ranked| - 1];
      RefusedRest(usable, protectedTokens, front);
      var fits := Fitting(usable, protectedTokens);
      RefusedPush(Greedy.Greedy(front, fits), Refused(usable, protectedTokens, front), last, fits);
      assert ranked == front + [last];
    }
  }

  lemma IdsPermuted(a: seq<Item>, b: seq<Item>)
    requires multiset(a) == multiset(b)
    ensures multiset(Ids(a)) == multiset(Ids(b))
  {
    MapPermuted(a, b, IdOf);
  }

  lemma IdsConcat(a: seq<Item>, b: seq<Item>)
    ensures multiset(Ids(a + b)) == multiset(Ids(a)) + multiset(Ids(b))
  {
    assert Ids(a + b) == Ids(a) + Ids(b);
  }

  lemma SplitProtected(items: seq<Item>)
    ensures multiset(Filter(items, Protected)) + multiset(Ranked(items)) == multiset(items)
    ensures forall i :: i in Ranked(items) <==> i in items && !Protected(i)
  {
    hide Protected, Keeps;
    FilterMembers(items, Protected);
    FilterMembers(items, Evictable);
    SameElements(Ranked(items), Filter(items, Evictable));
    SameElements(Filter(items, Evictable), Ranked(items));
  }

  lemma OverBudgetIds(items: seq<Item>)
    ensures ExcludedIds(Map(items, OverBudget)) == Ids(items)
  {
  }

  /** A selection whose parts make up the items accounts for them. */
  lemma PartsAccount(items: seq<Item>, kept: seq<Item>, chosen: seq<Item>, refused: seq<Item>)
    requires multiset(kept) + (multiset(chosen) + multiset(refused)) == multiset(items)
    ensures Accounts(items, Stage(kept + chosen, Map(refused, OverBudget)))
  {
    OverBudgetIds(refused);
    IdsConcat(kept + chosen, refused);
    IdsPermuted(kept + chosen + refused, items);
  }

  /** Selection accounts for every item it is given. */
  lemma SelectAccounts(items: seq<Item>, usable: int)
    requires Select(items, usable).Fits?
    ensures Accounts(items, Select(items, usable).value)
  {
    if Tokens(items) <= usable {
      assert ExcludedIds([]) == [];
    } else {
      hide Accounts, Tokens, Protected, Ranked;
      var kept := Filter(items, Protected);
      var t := Tokens(kept);
      SplitProtected(items);
      RefusedRest(usable, t, Ranked(items));
      PartsAccount(items, kept, Greedy.Greedy(Ranked(items), Fitting(usable, t)), Refused(usable, t, Ranked(items)));
    }
  }

  lemma {:induction false} TokensSplit(items: seq<Item>)
    requires forall i :: i in items ==> 0 <= i.tokens
    ensures Tokens(Filter(items, Protected)) <= Tokens(items) && 0 <= Tokens(Filter(items, Protected))
  {
    if items != [] {
      var n := |items| - 1;
      assert items == items[..n] + [items[n]];
      TokensSplit(items[..n]);
      TokensPush(items[..n], items[n]);
      TokensPush(Filter(items[..n], Protected), items[n]);
      assert Filter(items[..n], Protected) + [] == Filter(items[..n], Protected);
    }
  }

  /** Selection fails exactly when the protected items alone do not fit. */
  lemma SelectFailsIff(items: seq<Item>, usable: int)
    requires forall i :: i in items ==> 0 <= i.tokens
    ensures Select(items, usable).Exhausted? <==> Tokens(Filter(items, Protected)) > usable
  {
    TokensSplit(items);
  }

  lemma {:induction false} GreedyFits(usable: int, protectedTokens: int, ranked: seq<Item>)
    requires protectedTokens <= usable
    ensures protectedTokens + Tokens(Greedy.Greedy(ranked, Fitting(usable, protectedTokens))) <= usable
  {
    if ranked != [] {
      var n := |ranked| - 1;
      GreedyFits(usable, protectedTokens, ranked[..n]);
      TokensPush(Greedy.Greedy(ranked[..n], Fitting(usable, protectedTokens)), ranked[n]);
      hide Tokens;
    }
  }

  /** What is selected fits. */
  lemma SelectFits(items: seq<Item>, usable: int)
    requires Select(items, usable).Fits?
    ensures Tokens(Select(items, usable).value.kept) <= usable
  {
    var kept := Filter(items, Protected);
    if Tokens(items) > usable {
      GreedyFits(usable, Tokens(kept), Ranked(items));
      TokensConcat(kept, Greedy.Greedy(Ranked(items), Fitting(usable, Tokens(kept))));
    }
  }

  /** When not everything fits, protected items stay, and another item stays iff it fits after
      the protected ones and the kept ones that rank above it. */
  lemma SelectIff(items: seq<Item>, usable: int, i: Item)
    requires DistinctIds(items) && i in items && Tokens(items) > usable && Select(items, usable).Fits?
    ensures var kept := Filter(items, Protected);
            var chosen := Greedy.Greedy(Ranked(items), Fitting(usable, Tokens(kept)));
            && Select(items, usable).value.kept == kept + chosen
            && (Protected(i) ==> i in kept)
            && (!Protected(i) ==>
                  (i in Select(items, usable).value.kept
                   <==> Tokens(kept) + Tokens(Ahead(chosen, i, Keeps)) + i.tokens <= usable))
  {
    FilterMembers(items, Protected);
    if !Protected(i) {
      RankedReady(items);
      KeepsOrders(items);
      SplitProtected(items);
      hide Keeps, Protected, Ranked, Tokens, DistinctIds;
      GreedyIff(Ranked(items), i, Fitting(usable, Tokens(Filter(items, Protected))), Keeps);
    }
  }

  lemma PartOfDistinct(items: seq<Item>, part: seq<Item>)
    requires DistinctIds(items) && multiset(part) <= multiset(items)
    ensures StrictOrder(Keeps) && Separates(multiset(part), Keeps) && Once(part)
  {
    hide Keeps;
    KeepsOrders(items);
    DistinctOnce(items);
    OncePart(items, part);
  }

  lemma RankedReady(items: seq<Item>)
    requires DistinctIds(items)
    ensures Sorted(Ranked(items), Keeps) && Separates(multiset(Ranked(items)), Keeps) && Once(Ranked(items))
  {
    hide Keeps, Evictable, Once, Separates, StrictOrder, Sorted, DistinctIds;
    var f := Filter(items, Evictable);
    FilterMembers(items, Evictable);
    assert forall x :: multiset(f)[x] <= multiset(items)[x];
    PartOfDistinct(items, f);
    SortSorted(f, Keeps);
    PartOfDistinct(items, Ranked(items));
  }

  lemma {:induction false} DistinctOnce(items: seq<Item>)
    requires DistinctIds(items)
    ensures forall x :: multiset(items)[x] <= 1
  {
    if items != [] {
      var n := |items| - 1;
      var front, last := items[..n], items[n];
      assert items == front + [last];
      PushItem(front, last);
      assert forall x :: multiset(Ids(front))[x] <= multiset(Ids(items))[x];
      DistinctOnce(front);
      if last in front { CountedOnce(front, last); }
      assert last !in multiset(front);
    }
  }

  lemma CountedOnce(items: seq<Item>, i: Item)
    requires i in items
    ensures i.id in multiset(Ids(items))
  {
    var k :| 0 <= k < |items| && items[k] == i;
    assert Ids(items)[k] == i.id;
  }

  lemma OncePart(items: seq<Item>, part: seq<Item>)
    requires (forall x :: multiset(items)[x] <= 1) && multiset(part) <= multiset(items)
    ensures Once(part)
  {
    forall a, b | 0 <= a < b < |part| ensures part[a] != part[b] {
      Extract(part, b);
      var rest := part[..b] + part[b + 1..];
      assert rest[a] == part[a] && rest[a] in multiset(rest);
    }
  }

  // ---- what compaction does ----

  function Flatten(chunks: seq<seq<Item>>): seq<Item> {
    if chunks == [] then [] else chunks[0] + Flatten(chunks[1..])
  }

  /** The chunks cover their items once, in order, with as few chunks as possible. */
  lemma {:induction false} ChunksCover(items: seq<Item>)
    ensures Flatten(Chunks(items)) == items
    ensures |Chunks(items)| == (|items| + CHUNK - 1) / CHUNK
    ensures forall k :: 0 <= k < |Chunks(items)| ==> 0 < |Chunks(items)[k]| <= CHUNK
    decreases |items|
  {
    if items == [] {
    } else if |items| <= CHUNK {
      assert Flatten([items]) == items + Flatten([items][1..]);
      assert [items][1..] == [];
    } else {
      ChunksCover(items[CHUNK..]);
      assert Chunks(items)[1..] == Chunks(items[CHUNK..]);
      assert items == items[..CHUNK] + items[CHUNK..];
    }
  }

  /** What was refused is what the audit names: with unique ids, fetching the excluded ids
      again finds exactly the refused items, none of them protected. */
  lemma EvictedAre(rows: seq<Item>, items: seq<Item>, refused: seq<Item>)
    requires DistinctIds(rows) && multiset(items) <= multiset(rows) && multiset(refused) <= multiset(items)
    requires forall i :: i in refused ==> !Protected(i)
    ensures multiset(Evicted(rows, Map(refused, OverBudget))) == multiset(refused)
    ensures Filter(Evicted(rows, Map(refused, OverBudget)), Evictable) == Evicted(rows, Map(refused, OverBudget))
    ensures Filter(Evicted(rows, Map(refused, OverBudget)), Protected) == []
  {
    hide Protected, DistinctIds;
    var ids := ExcludedIds(Map(refused, OverBudget));
    OverBudgetIds(refused);
    var evicted := Evicted(rows, Map(refused, OverBudget));
    FilterMembers(rows, Named(ids));
    DistinctOnce(rows);
    SameElements(refused, rows);
    forall x ensures multiset(evicted)[x] == multiset(refused)[x] {
      assert multiset(refused)[x] <= multiset(rows)[x] <= 1;
      NamedIff(rows, refused, x);
    }
    SameElements(evicted, refused);
    FilterAll(evicted, Evictable);
    FilterNone(evicted, Protected);
  }

  lemma NamedIff(rows: seq<Item>, refused: seq<Item>, x: Item)
    requires DistinctIds(rows) && forall i :: i in refused ==> i in rows
    ensures x in multiset(rows) && x.id in Ids(refused) <==> x in multiset(refused)
  {
    if x in rows && x.id in Ids(refused) {
      var k :| 0 <= k < |refused| && Ids(refused)[k] == x.id;
      assert refused[k] in refused;
      SameItem(rows, x, refused[k]);
    }
    if x in refused {
      var k :| 0 <= k < |refused| && refused[k] == x;
      assert Ids(refused)[k] == x.id;
    }
  }

  lemma {:induction false} RefusedAre(usable: int, protectedTokens: int, ranked: seq<Item>)
    ensures forall i :: i in Refused(usable, protectedTokens, ranked) ==> i in ranked
  {
    RefusedRest(usable, protectedTokens, ranked);
    SameElements(Refused(usable, protectedTokens, ranked), ranked);
  }

  /** The items a selection refuses. */
  function RefusedBy(items: seq<Item>, usable: int): seq<Item> {
    if Tokens(items) <= usable then [] else Refused(usable, Tokens(Filter(items, Protected)), Ranked(items))
  }

  lemma RefusedByAre(items: seq<Item>, usable: int)
    requires Select(items, usable).Fits?
    ensures Select(items, usable).value.excluded == Map(RefusedBy(items, usable), OverBudget)
    ensures multiset(RefusedBy(items, usable)) <= multiset(items)
    ensures forall i :: i in RefusedBy(items, usable) ==> !Protected(i)
  {
    hide Protected, Tokens, Ranked;
    var t := Tokens(Filter(items, Protected));
    SplitProtected(items);
    RefusedRest(usable, t, Ranked(items));
    RefusedAre(usable, t, Ranked(items));
  }

  lemma SummariesEvictable(chunks: seq<seq<Item>>, at: int, digest: seq<string> -> string)
    ensures Filter(Summaries(chunks, at, digest), Protected) == []
  {
    FilterNone(Summaries(chunks, at, digest), Protected);
  }

  lemma FilteredTokens(rows: seq<Item>, v: View, at: int)
    ensures forall i :: i in Filtered(rows, v, at).kept ==> 0 <= i.tokens
    ensures DistinctIds(Filtered(rows, v, at).kept) && multiset(Filtered(rows, v, at).kept) <= multiset(rows)
  {
    hide Filtered;
    FilteredMeans(rows, v, at);
    FilteredAccounts(rows, v, at);
  }

  /** What compaction is handed, and what it makes of it. */
  lemma Compaction(rows: seq<Item>, v: View, usable: int, at: int, digest: seq<string> -> string)
    requires DistinctIds(rows)
    requires Select(Filtered(rows, v, at).kept, usable).Fits? && Select(Filtered(rows, v, at).kept, usable).value.excluded != []
    ensures var s := Select(Filtered(rows, v, at).kept, usable).value;
            var evicted := Evicted(rows, s.excluded);
            var c := Compact(s.kept, evicted, usable, at, digest);
            && multiset(evicted) == multiset(RefusedBy(Filtered(rows, v, at).kept, usable)) && evicted != []
            && c.summaries == Summaries(Chunks(evicted), at, digest) && c.final == s.kept + c.summaries
            && Filter(c.final, Protected) == Filter(s.kept, Protected)
  {
    var items := Filtered(rows, v, at).kept;
    FilteredTokens(rows, v, at);
    RefusedByAre(items, usable);
    hide Filtered, Select, Protected, RefusedBy;
    var s := Select(items, usable).value;
    EvictedAre(rows, items, RefusedBy(items, usable));
    var evicted := Evicted(rows, s.excluded);
    hide Evicted, DistinctIds;
    assert |multiset(evicted)| == |evicted| && |multiset(RefusedBy(items, usable))| == |RefusedBy(items, usable)|;
    SummariesEvictable(Chunks(evicted), at, digest);
    FilterConcat(s.kept, Summaries(Chunks(evicted), at, digest), Protected);
    assert s.kept + [] == s.kept;
  }

  lemma ProtectedTokens(items: seq<Item>, usable: int)
    requires Select(items, usable).Fits? && forall i :: i in items ==> 0 <= i.tokens
    ensures Tokens(Filter(Select(items, usable).value.kept, Protected)) <= usable
  {
    SelectFits(items, usable);
    SelectAccounts(items, usable);
    var kept := Select(items, usable).value.kept;
    SameElements(kept, items);
    TokensSplit(kept);
  }

  /** A build fails exactly when the protected items that pass the filters do not fit. The second
      check, after compaction, never fails: summaries are not protected. */
  lemma BuildFailsIff(rows: seq<Item>, v: View, usable: int, at: int, digest: seq<string> -> string)
    requires DistinctIds(rows)
    ensures Build(rows, v, usable, at, digest).Exhausted?
            <==> Tokens(Filter(Filtered(rows, v, at).kept, Protected)) > usable
  {
    var items := Filtered(rows, v, at).kept;
    FilteredTokens(rows, v, at);
    SelectFailsIff(items, usable);
    if Select(items, usable).Fits? {
      ProtectedTokens(items, usable);
      if Select(items, usable).value.excluded != [] { Compaction(rows, v, usable, at, digest); }
    }
    hide Filtered, Select, Compact, Tokens, Protected;
  }

  lemma BuildIs(rows: seq<Item>, v: View, usable: int, at: int, digest: seq<string> -> string)
    requires DistinctIds(rows) && Build(rows, v, usable, at, digest).Fits?
    ensures var f := Filtered(rows, v, at);
            && Select(f.kept, usable).Fits?
            && var s := Select(f.kept, usable).value;
            && var r := Build(rows, v, usable, at, digest).value;
            && r.items == s.kept + r.summaries
            && r.excluded == f.excluded + s.excluded + Map(r.summaries, SummaryNote)
            && r.tokens == Tokens(r.items)
            && r.summaries == (if s.excluded == [] then [] else Summaries(Chunks(Evicted(rows, s.excluded)), at, digest))
  {
    var f := Filtered(rows, v, at);
    var s := Select(f.kept, usable).value;
    if s.excluded != [] {
      Compaction(rows, v, usable, at, digest);
    } else {
      assert s.kept + [] == s.kept && f.excluded + [] + Map([], SummaryNote) == f.excluded;
    }
    hide Filtered, Select, Compact, Tokens;
  }

  /** Every row of a run ends in the snapshot or in its exclusions, once; the rest of the
      snapshot are the new summaries, and the rest of the exclusions are the notes about them. */
  lemma BuildAccounts(rows: seq<Item>, v: View, usable: int, at: int, digest: seq<string> -> string)
    requires DistinctIds(rows) && Build(rows, v, usable, at, digest).Fits?
    ensures var r := Build(rows, v, usable, at, digest).value;
            && |r.summaries| <= |r.items| && |r.summaries| <= |r.excluded|
            && var kept, out := r.items[..|r.items| - |r.summaries|], r.excluded[..|r.excluded| - |r.summaries|];
            && Accounts(rows, Stage(kept, out))
            && r.items == kept + r.summaries && r.excluded == out + Map(r.summaries, SummaryNote)
  {
    hide *;
    BuildIs(rows, v, usable, at, digest);
    var f := Filtered(rows, v, at);
    var s := Select(f.kept, usable).value;
    var r := Build(rows, v, usable, at, digest).value;
    FilteredAccounts(rows, v, at);
    SelectAccounts(f.kept, usable);
    Then(rows, f, s);
    assert r.items[..|r.items| - |r.summaries|] == s.kept;
    assert r.excluded[..|r.excluded| - |r.summaries|] == f.excluded + s.excluded;
  }

  /** Which rows a snapshot holds, besides its summaries: those that pass the filters and are
      protected, or all that pass when everything fits, or that fit after the protected ones and
      the kept ones that rank above them. */
  lemma SelectedIff(rows: seq<Item>, v: View, usable: int, at: int, digest: seq<string> -> string, i: Item)
    requires DistinctIds(rows) && Build(rows, v, usable, at, digest).Fits?
    ensures var items := Filtered(rows, v, at).kept;
            var r := Build(rows, v, usable, at, digest).value;
            && Select(items, usable).Fits? && r.items == Select(items, usable).value.kept + r.summaries
            && (i in Select(items, usable).value.kept <==> Passes(rows, v, at, i) && Stays(items, usable, i))
  {
    hide *;
    BuildIs(rows, v, usable, at, digest);
    FilteredTokens(rows, v, at);
    FilteredIff(rows, v, at, i);
    var items := Filtered(rows, v, at).kept;
    if i in items { SelectStays(items, usable, i); } else { NotSelected(items, usable, i); }
  }

  lemma NotSelected(items: seq<Item>, usable: int, i: Item)
    requires i !in items && Select(items, usable).Fits?
    ensures i !in Select(items, usable).value.kept
  {
    SelectAccounts(items, usable);
    hide Select;
    SameElements(Select(items, usable).value.kept, items);
  }

  ghost predicate Stays(items: seq<Item>, usable: int, i: Item) {
    var kept := Filter(items, Protected);
    var chosen := Greedy.Greedy(Ranked(items), Fitting(usable, Tokens(kept)));
    Protected(i) || Tokens(items) <= usable || Tokens(kept) + Tokens(Ahead(chosen, i, Keeps)) + i.tokens <= usable
  }

  lemma SelectStays(items: seq<Item>, usable: int, i: Item)
    requires DistinctIds(items) && i in items && Select(items, usable).Fits?
    ensures i in Select(items, usable).value.kept <==> Stays(items, usable, i)
  {
    hide Keeps, Protected, Tokens, Ranked, DistinctIds, Ahead;
    if Tokens(items) > usable { SelectIff(items, usable, i); }
  }

  /** The ids that summaries record in their metadata. */
  function Recorded(summaries: seq<Item>): seq<string> {
    if summaries == [] then [] else summaries[0].compacted + Recorded(summaries[1..])
  }

  /** A summary names what it absorbed, at most 16 items, in its metadata and its source. */
  predicate NamesSources(s: Item) {
    0 < |s.compacted| <= CHUNK && s.sourceRef == "compaction:" + Join(s.compacted, ",")
  }

  /** Summaries that record the refused items, each exactly once, in as few as possible. */
  ghost predicate Cover(summaries: seq<Item>, refused: seq<Item>) {
    && multiset(Recorded(summaries)) == multiset(Ids(refused)) && |summaries| == (|refused| + CHUNK - 1) / CHUNK
    && forall k :: 0 <= k < |summaries| ==> NamesSources(summaries[k])
  }

  lemma SummariesRest(chunks: seq<seq<Item>>, at: int, digest: seq<string> -> string)
    requires chunks != []
    ensures Summaries(chunks, at, digest) == [Summary(chunks[0], at, digest)] + Summaries(chunks[1..], at, digest)
    ensures Summary(chunks[0], at, digest).compacted == Ids(chunks[0])
  {
    hide SummaryContent, Estimate, Join, Sort, Ids;
  }

  lemma {:induction false} RecordedAre(chunks: seq<seq<Item>>, at: int, digest: seq<string> -> string)
    ensures Recorded(Summaries(chunks, at, digest)) == Ids(Flatten(chunks))
  {
    hide Summary, Summaries;
    if chunks == [] {
      assert Summaries(chunks, at, digest) == [];
    } else {
      RecordedAre(chunks[1..], at, digest);
      SummariesRest(chunks, at, digest);
      IdsOfBoth(chunks[0], Flatten(chunks[1..]));
      hide Ids;
      assert Summaries(chunks, at, digest)[1..] == Summaries(chunks[1..], at, digest);
    }
  }

  lemma IdsOfBoth(a: seq<Item>, b: seq<Item>)
    ensures Ids(a + b) == Ids(a) + Ids(b)
  {
  }

  lemma SummariesCover(evicted: seq<Item>, refused: seq<Item>, at: int, digest: seq<string> -> string)
    requires multiset(evicted) == multiset(refused)
    ensures Cover(Summaries(Chunks(evicted), at, digest), refused)
  {
    hide SummaryContent, Estimate, Chunks, Flatten, Join, Summary, Ids;
    ChunksCover(evicted);
    RecordedAre(Chunks(evicted), at, digest);
    IdsPermuted(evicted, refused);
    assert |multiset(evicted)| == |evicted| && |multiset(refused)| == |refused|;
    var chunks := Chunks(evicted);
    forall k | 0 <= k < |chunks| ensures NamesSources(Summary(chunks[k], at, digest)) { SummaryNames(chunks[k], at, digest); }
    hide NamesSources;
  }

  lemma SummaryNames(chunk: seq<Item>, at: int, digest: seq<string> -> string)
    requires 0 < |chunk| <= CHUNK
    ensures NamesSources(Summary(chunk, at, digest)) && Summary(chunk, at, digest).compacted == Ids(chunk)
  {
    hide SummaryContent, Estimate, Join;
  }

  /** The rows excluded for budget are recorded in the summaries, each by exactly one, in
      ceil(n / 16) summaries of at most 16 rows. */
  lemma EvictedCoveredOnce(rows: seq<Item>, v: View, usable: int, at: int, digest: seq<string> -> string)
    requires DistinctIds(rows) && Build(rows, v, usable, at, digest).Fits?
    ensures var refused := RefusedBy(Filtered(rows, v, at).kept, usable);
            && Cover(Build(rows, v, usable, at, digest).value.summaries, refused)
            && Select(Filtered(rows, v, at).kept, usable).Fits?
            && Select(Filtered(rows, v, at).kept, usable).value.excluded == Map(refused, OverBudget)
  {
    hide *;
    BuildIs(rows, v, usable, at, digest);
    FilteredTokens(rows, v, at);
    var items := Filtered(rows, v, at).kept;
    RefusedByAre(items, usable);
    var s := Select(items, usable).value;
    if s.excluded == [] {
      NothingRefused(items, usable);
    } else {
      Compaction(rows, v, usable, at, digest);
      SummariesCover(Evicted(rows, s.excluded), RefusedBy(items, usable), at, digest);
    }
  }

  lemma NothingRefused(items: seq<Item>, usable: int)
    requires Map(RefusedBy(items, usable), OverBudget) == []
    ensures RefusedBy(items, usable) == [] && Cover([], RefusedBy(items, usable))
  {
    hide RefusedBy;
    assert |RefusedBy(items, usable)| == |Map(RefusedBy(items, usable), OverBudget)|;
    assert Recorded([]) == Ids([]) == [];
  }
}
