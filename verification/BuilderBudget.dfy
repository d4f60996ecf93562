// The budget after compaction: what the summaries cost, when a finished snapshot exceeds the
// budget, and when it cannot.

module BuilderBudget {
  import opened Common
  import opened Lists
  import opened BuilderStages
  import opened ContextBuilder

  function ChunkCost(chunk: seq<Item>): int {
    Estimate(SummaryContent(chunk))
  }

  /** What summarising the items will cost; it depends on their ids and contents alone. */
  function SummaryCost(evicted: seq<Item>): int {
    Sum(Map(Chunks(evicted), ChunkCost))
  }

  /** The rows that selection will evict, in the order in which they are fetched again. */
  function WillEvict(rows: seq<Item>, v: View, usable: int, at: int): seq<Item>
    requires Select(Filtered(rows, v, at).kept, usable).Fits?
  {
    Evicted(rows, Select(Filtered(rows, v, at).kept, usable).value.excluded)
  }

  /** What selection leaves of the budget. */
  function Slack(items: seq<Item>, usable: int): int
    requires Select(items, usable).Fits?
  {
    usable - Tokens(Select(items, usable).value.kept)
  }

  lemma SummariesTokens(chunks: seq<seq<Item>>, at: int, digest: seq<string> -> string)
    ensures Tokens(Summaries(chunks, at, digest)) == Sum(Map(chunks, ChunkCost))
  {
    assert Map(Summaries(chunks, at, digest), TokensOf) == Map(chunks, ChunkCost);
  }

  /** Something is refused exactly when not everything fits. */
  lemma RefusesIff(items: seq<Item>, usable: int)
    requires Select(items, usable).Fits?
    ensures Select(items, usable).value.excluded != [] <==> Tokens(items) > usable
  {
    if Tokens(items) > usable && Select(items, usable).value.excluded == [] {
      hide Protected, Tokens, Ranked, Fitting;
      NothingRefused(items, usable);
      SplitProtected(items);
      RefusedRest(usable, Tokens(Filter(items, Protected)), Ranked(items));
      SelectFits(items, usable);
      TokensPermuted(Select(items, usable).value.kept, items);
    }
  }

  lemma TokensPermuted(a: seq<Item>, b: seq<Item>)
    requires multiset(a) == multiset(b)
    ensures Tokens(a) == Tokens(b)
  {
    MapPermuted(a, b, TokensOf);
    SumPermuted(Map(a, TokensOf), Map(b, TokensOf));
  }

  /** A snapshot exceeds the budget iff what passes the filters does not fit and summarising
      what selection evicts costs more than it leaves: both are known before the call. */
  lemma OverBudgetIff(rows: seq<Item>, v: View, usable: int, at: int, digest: seq<string> -> string)
    requires DistinctIds(rows) && Build(rows, v, usable, at, digest).Fits?
    ensures var items := Filtered(rows, v, at).kept;
            && Select(items, usable).Fits? && 0 <= Slack(items, usable)
            && (Build(rows, v, usable, at, digest).value.tokens > usable
                <==> Tokens(items) > usable && SummaryCost(WillEvict(rows, v, usable, at)) > Slack(items, usable))
  {
    hide Build, Filtered, Select, Evicted, Tokens, Chunks, Summaries, ChunkCost, DistinctIds, Sum;
    BuildIs(rows, v, usable, at, digest);
    var items := Filtered(rows, v, at).kept;
    SelectFits(items, usable);
    RefusesIff(items, usable);
    var r := Build(rows, v, usable, at, digest).value;
    TokensConcat(Select(items, usable).value.kept, r.summaries);
    if r.summaries == [] { NoTokens(r.summaries); }
    SummariesTokens(Chunks(WillEvict(rows, v, usable, at)), at, digest);
  }

  /** Within the budget whenever everything that passes the filters fits. */
  lemma NeverOverWhenAllFits(rows: seq<Item>, v: View, usable: int, at: int, digest: seq<string> -> string)
    requires DistinctIds(rows) && Tokens(Filtered(rows, v, at).kept) <= usable
    ensures Build(rows, v, usable, at, digest).Fits? && Build(rows, v, usable, at, digest).value.tokens <= usable
  {
    FilteredTokens(rows, v, at);
    TokensSplit(Filtered(rows, v, at).kept);
    BuildFailsIff(rows, v, usable, at, digest);
    hide *;
    OverBudgetIff(rows, v, usable, at, digest);
  }

  /** How many summaries n evicted rows need. */
  function Ceiling(n: nat): nat {
    (n + CHUNK - 1) / CHUNK
  }

  /** Over the budget whenever the slack is less than ten tokens a summary. */
  lemma OverWhenTight(rows: seq<Item>, v: View, usable: int, at: int, digest: seq<string> -> string)
    requires DistinctIds(rows) && Build(rows, v, usable, at, digest).Fits?
    requires var items := Filtered(rows, v, at).kept;
             && Tokens(items) > usable && Select(items, usable).Fits?
             && Slack(items, usable) < 10 * Ceiling(|RefusedBy(items, usable)|)
    ensures Build(rows, v, usable, at, digest).value.tokens > usable
  {
    hide *;
    OverBudgetIff(rows, v, usable, at, digest);
    WillEvictAre(rows, v, usable, at, digest);
    CostAtLeast(WillEvict(rows, v, usable, at));
  }

  /** Within the budget whenever the slack covers, in bytes, the fixed text and the snippets
      of every summary and the ids it lists. */
  lemma EnoughSlack(rows: seq<Item>, v: View, usable: int, at: int, digest: seq<string> -> string)
    requires DistinctIds(rows) && Build(rows, v, usable, at, digest).Fits?
    requires var items := Filtered(rows, v, at).kept;
             && Select(items, usable).Fits?
             && 4 * Slack(items, usable)
                >= SUMMARY_BYTES * Ceiling(|RefusedBy(items, usable)|) + Bytes(Ids(RefusedBy(items, usable)))
    ensures Build(rows, v, usable, at, digest).value.tokens <= usable
  {
    hide *;
    OverBudgetIff(rows, v, usable, at, digest);
    var items := Filtered(rows, v, at).kept;
    if Tokens(items) > usable {
      WillEvictAre(rows, v, usable, at, digest);
      CostAtMost(WillEvict(rows, v, usable, at));
    }
  }

  lemma WillEvictAre(rows: seq<Item>, v: View, usable: int, at: int, digest: seq<string> -> string)
    requires DistinctIds(rows) && Select(Filtered(rows, v, at).kept, usable).Fits? && Tokens(Filtered(rows, v, at).kept) > usable
    ensures var evicted, refused := WillEvict(rows, v, usable, at), RefusedBy(Filtered(rows, v, at).kept, usable);
            |evicted| == |refused| && Bytes(Ids(evicted)) == Bytes(Ids(refused))
  {
    hide *;
    var items := Filtered(rows, v, at).kept;
    RefusesIff(items, usable);
    Compaction(rows, v, usable, at, digest);
    EvictedSame(rows, v, usable, at);
    var evicted, refused := WillEvict(rows, v, usable, at), RefusedBy(items, usable);
    assert |multiset(evicted)| == |evicted| && |multiset(refused)| == |refused|;
    IdsPermuted(evicted, refused);
    BytesPermuted(Ids(evicted), Ids(refused));
  }

  lemma EvictedSame(rows: seq<Item>, v: View, usable: int, at: int)
    requires Select(Filtered(rows, v, at).kept, usable).Fits?
    ensures WillEvict(rows, v, usable, at) == Evicted(rows, Select(Filtered(rows, v, at).kept, usable).value.excluded)
  {
  }

  // ---- how long a summary is ----

  /** The brackets and words of a summary, at most two digits, the separators of 16 ids and of
      16 snippets, 400 characters of up to four bytes, and rounding up. */
  const SUMMARY_BYTES := 1718

  function Bytes(parts: seq<string>): int {
    Sum(Map(parts, ByteLength))
  }

  lemma BytesPermuted(a: seq<string>, b: seq<string>)
    requires multiset(a) == multiset(b)
    ensures Bytes(a) == Bytes(b)
  {
    MapPermuted(a, b, ByteLength);
    SumPermuted(Map(a, ByteLength), Map(b, ByteLength));
  }

  lemma BytesPush(parts: seq<string>, s: string)
    ensures Bytes(parts + [s]) == Bytes(parts) + ByteLength(s)
  {
    hide ByteLength;
    assert Map(parts + [s], ByteLength)[..|parts|] == Map(parts, ByteLength);
  }

  lemma BytesOne(s: string)
    ensures Bytes([]) == 0 && Bytes([s]) == ByteLength(s)
  {
    BytesPush([], s);
    assert [] + [s] == [s];
  }

  lemma BytesConcat(a: seq<string>, b: seq<string>)
    ensures Bytes(a + b) == Bytes(a) + Bytes(b)
  {
    assert Map(a + b, ByteLength) == Map(a, ByteLength) + Map(b, ByteLength);
    SumConcat(Map(a, ByteLength), Map(b, ByteLength));
  }

  lemma {:induction false} BytesBounds(s: string)
    ensures |s| <= ByteLength(s) <= 4 * |s|
  {
    if s != [] { BytesBounds(s[1..]); }
  }

  lemma {:induction false} ByteLengthConcat(a: string, b: string)
    ensures ByteLength(a + b) == ByteLength(a) + ByteLength(b)
  {
    if a == [] {
      assert a + b == b;
    } else {
      assert (a + b)[1..] == a[1..] + b;
      ByteLengthConcat(a[1..], b);
    }
  }

  lemma {:induction false} JoinBytes(parts: seq<string>, separator: string)
    requires parts != []
    ensures ByteLength(Join(parts, separator)) == Bytes(parts) + ByteLength(separator) * (|parts| - 1)
  {
    hide ByteLength, Bytes;
    var n := |parts| - 1;
    var front, last := parts[..n], parts[n];
    assert parts == front + [last];
    if n == 0 {
      BytesOne(last);
    } else {
      BytesPush(front, last);
      JoinBytes(front, separator);
      ByteLengthConcat(Join(front, separator) + separator, last);
      ByteLengthConcat(Join(front, separator), separator);
      Distribute(ByteLength(separator), n);
    }
  }

  lemma Distribute(a: int, n: int)
    ensures a * (n - 1) + a == a * n
  {
  }

  lemma {:induction false} SnippetsBounded(chunk: seq<Item>, used: nat)
    requires used <= 400
    ensures |Snippets(chunk, used)| <= |chunk| && Bytes(Snippets(chunk, used)) <= 4 * (400 - used)
  {
    hide ByteLength, Bytes;
    BytesOne("");
    if chunk != [] {
      var s := Prefix(chunk[0].content, 80);
      if used + |s| <= 400 {
        SnippetsBounded(chunk[1..], used + |s|);
        BytesConcat([s], Snippets(chunk[1..], used + |s|));
        BytesOne(s);
        BytesBounds(s);
      }
    }
  }

  lemma DigitsBounds(n: nat)
    ensures 1 <= |Digits(n)| && (n < 100 ==> |Digits(n)| <= 2)
  {
    if n >= 10 { assert |Digits(n)| == |Digits(n / 10)| + 1; }
  }

  lemma {:induction false} DigitsAscii(n: nat)
    ensures forall i :: 0 <= i < |Digits(n)| ==> Digits(n)[i] as int < 0x80
  {
    if n >= 10 { DigitsAscii(n / 10); }
  }

  /** The bytes of a summary, part by part. */
  lemma ContentBytes(chunk: seq<Item>)
    ensures ByteLength(SummaryContent(chunk))
            == 38 + |Digits(|chunk|)| + ByteLength(Join(Ids(chunk), ", ")) + ByteLength(Join(Snippets(chunk, 0), " | "))
  {
    hide Digits, ByteLength, Join, Snippets, Ids;
    DigitsAscii(|chunk|);
    AsciiBytes(Digits(|chunk|));
    FixedBytes();
    PartsBytes("[compacted ", Digits(|chunk|), " observations: ", Join(Ids(chunk), ", "), "] snippets: ",
               Join(Snippets(chunk, 0), " | "));
  }

  lemma PartsBytes(a: string, b: string, c: string, d: string, e: string, f: string)
    ensures ByteLength(a + b + c + d + e + f)
            == ByteLength(a) + ByteLength(b) + ByteLength(c) + ByteLength(d) + ByteLength(e) + ByteLength(f)
  {
    hide ByteLength;
    ByteLengthConcat(a, b);
    ByteLengthConcat(a + b, c);
    ByteLengthConcat(a + b + c, d);
    ByteLengthConcat(a + b + c + d, e);
    ByteLengthConcat(a + b + c + d + e, f);
  }

  lemma {:induction false} AsciiBytes(s: string)
    requires forall i :: 0 <= i < |s| ==> s[i] as int < 0x80
    ensures ByteLength(s) == |s|
  {
    if s != [] { AsciiBytes(s[1..]); }
  }

  lemma FixedBytes()
    ensures ByteLength("[compacted ") + ByteLength(" observations: ") + ByteLength("] snippets: ") == 38
    ensures ByteLength(", ") == 2 && ByteLength(" | ") == 3
  {
    hide ByteLength;
    AsciiBytes("[compacted ");
    AsciiBytes(" observations: ");
    AsciiBytes("] snippets: ");
    AsciiBytes(", ");
    AsciiBytes(" | ");
  }

  lemma SnippetBytes(chunk: seq<Item>)
    requires 0 < |chunk| <= CHUNK
    ensures 0 <= ByteLength(Join(Snippets(chunk, 0), " | ")) <= 1645
  {
    hide ByteLength, Bytes, Snippets, Join;
    SnippetsBounded(chunk, 0);
    FixedBytes();
    if Snippets(chunk, 0) != [] { JoinBytes(Snippets(chunk, 0), " | "); } else { NoBytes(); }
  }

  lemma IdBytes(chunk: seq<Item>)
    requires 0 < |chunk| <= CHUNK
    ensures 0 <= ByteLength(Join(Ids(chunk), ", ")) <= Bytes(Ids(chunk)) + 30
  {
    hide ByteLength, Bytes, Join;
    FixedBytes();
    JoinBytes(Ids(chunk), ", ");
  }

  lemma ChunkCostBounds(chunk: seq<Item>)
    requires 0 < |chunk| <= CHUNK
    ensures 10 <= ChunkCost(chunk) && 4 * ChunkCost(chunk) <= SUMMARY_BYTES + Bytes(Ids(chunk))
  {
    hide ByteLength, Digits, Join, Snippets, SummaryContent, Bytes, Ids;
    ContentBytes(chunk);
    DigitsBounds(|chunk|);
    SnippetBytes(chunk);
    IdBytes(chunk);
  }

  lemma NoBytes()
    ensures ByteLength(Join([], " | ")) == 0
  {
  }

  lemma SummaryTokens(chunk: seq<Item>, at: int, digest: seq<string> -> string)
    requires 0 < |chunk| <= CHUNK
    ensures Summary(chunk, at, digest).tokens >= 10
  {
    ChunkCostBounds(chunk);
  }

  lemma CostAtLeast(items: seq<Item>)
    ensures SummaryCost(items) >= 10 * Ceiling(|items|)
  {
    hide Chunks, ByteLength, ChunkCost, Bytes, Ids, Sum;
    ChunksCover(items);
    ChunksCost(Chunks(items));
  }

  lemma CostAtMost(items: seq<Item>)
    ensures 4 * SummaryCost(items) <= SUMMARY_BYTES * Ceiling(|items|) + Bytes(Ids(items))
  {
    hide Chunks, ByteLength, ChunkCost, Bytes, Ids, Sum;
    ChunksCover(items);
    ChunksCost(Chunks(items));
  }

  lemma FirstCost(first: seq<Item>, rest: seq<seq<Item>>)
    ensures Sum(Map([first] + rest, ChunkCost)) == ChunkCost(first) + Sum(Map(rest, ChunkCost))
  {
    hide ChunkCost;
    assert Map([first] + rest, ChunkCost) == Map([first], ChunkCost) + Map(rest, ChunkCost);
    SumConcat(Map([first], ChunkCost), Map(rest, ChunkCost));
    assert Map([first], ChunkCost) == [ChunkCost(first)];
  }

  lemma FirstBytes(first: seq<Item>, rest: seq<Item>)
    ensures Bytes(Ids(first + rest)) == Bytes(Ids(first)) + Bytes(Ids(rest))
  {
    hide Bytes;
    assert Ids(first + rest) == Ids(first) + Ids(rest);
    BytesConcat(Ids(first), Ids(rest));
  }

  lemma NoCost()
    ensures Sum(Map([], ChunkCost)) == 0 && Bytes(Ids([])) == 0
  {
  }

  lemma {:induction false} ChunksCost(chunks: seq<seq<Item>>)
    requires forall k :: 0 <= k < |chunks| ==> 0 < |chunks[k]| <= CHUNK
    ensures 10 * |chunks| <= Sum(Map(chunks, ChunkCost))
    ensures 4 * Sum(Map(chunks, ChunkCost)) <= SUMMARY_BYTES * |chunks| + Bytes(Ids(Flatten(chunks)))
  {
    hide ChunkCost, ByteLength, Bytes, Ids, Sum;
    if chunks == [] {
      NoCost();
    } else {
      var first, rest := chunks[0], chunks[1..];
      ChunksCost(rest);
      ChunkCostBounds(first);
      assert chunks == [first] + rest;
      FirstCost(first, rest);
      FirstBytes(first, Flatten(rest));
    }
  }

  lemma ExcludeNothing(i: Item, why: Why)
    requires why(i).None?
    ensures Exclude([i], why) == Stage([i], [])
  {
    assert [i][..0] == [];
  }

  const BIG := Item("a", L4, Observation, "", false, false, 0, [Shared], 0, None, None, 2, None, true, "", [])

  lemma BigReasons()
    ensures Invalid()(BIG).None? && Untrusted()(BIG).None? && Hidden(View(Coordinator, None))(BIG).None?
    ensures Outdated([BIG], 0)(BIG).None?
  {
    assert BIG.scope[0] == Shared;
  }

  lemma BigPasses()
    ensures Filtered([BIG], View(Coordinator, None), 0) == Stage([BIG], [])
  {
    hide Exclude, Duplicates, Invalid, Untrusted, Hidden, Outdated, ConflictIds;
    BigReasons();
    BigIsUnique();
    ExcludeNothing(BIG, Invalid());
    ExcludeNothing(BIG, Untrusted());
    ExcludeNothing(BIG, Hidden(View(Coordinator, None)));
    ExcludeNothing(BIG, Outdated([BIG], 0));
    ExcludeNothing(BIG, Conflicts([BIG]));
  }

  lemma BigIsUnique()
    ensures Duplicates([BIG]) == Stage([BIG], []) && ConflictIds([BIG]) == {}
  {
    assert [BIG][..0] == [] && Ids([]) == [];
  }

  lemma BigIsRefused()
    ensures Select([BIG], 1) == Fits(Stage([], [Exclusion("a", BudgetOverflow)]))
  {
    assert [BIG][..0] == [];
    TokensPush([], BIG);
    NoTokens([]);
    assert [] + [BIG] == [BIG];
    assert Filter([BIG], Protected) == [] && Filter([BIG], Evictable) == [BIG];
    assert Ranked([BIG]) == [BIG];
    assert Greedy.Greedy([BIG], Fitting(1, 0)) == [] && Refused(1, 0, [BIG]) == [BIG];
    assert Map([BIG], OverBudget) == [Exclusion("a", BudgetOverflow)];
    assert [] + Greedy.Greedy([BIG], Fitting(1, 0)) == [];
  }

  lemma OneRow()
    ensures DistinctIds([BIG]) && Tokens([]) == 0
  {
    assert Ids([BIG]) == ["a"];
    NoTokens([]);
  }

  /** The smallest case: one observation that does not fit becomes a summary that is larger. */
  lemma OverBudgetHappens(digest: seq<string> -> string)
    ensures var r := Build([BIG], View(Coordinator, None), 1, 0, digest);
            r.Fits? && r.value.tokens > 1
  {
    hide *;
    var v := View(Coordinator, None);
    BigPasses();
    BigIsRefused();
    OneRow();
    FilteredTokens([BIG], v, 0);
    SelectFailsIff([BIG], 1);
    BuildFailsIff([BIG], v, 1, 0, digest);
    BigRefused();
    TenForOne();
    OverWhenTight([BIG], v, 1, 0, digest);
  }

  lemma BigRefused()
    ensures Tokens([BIG]) == 2 && |RefusedBy([BIG], 1)| == 1 && Select([BIG], 1).Fits? && Slack([BIG], 1) <= 1
  {
    BigIsRefused();
    NoTokens([]);
    TokensPush([], BIG);
    assert [] + [BIG] == [BIG];
    RefusedByAre([BIG], 1);
    assert |Map(RefusedBy([BIG], 1), OverBudget)| == 1;
  }

  lemma TenForOne()
    ensures Ceiling(1) == 1
  {
  }
}
