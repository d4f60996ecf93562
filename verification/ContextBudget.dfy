// Budget allocation: protected candidates first, then a greedy pass over the rest in winner
// order under a token limit per bucket and in all.

module ContextBudget {
  import opened Common
  import opened Lists
  import opened Ordering
  import opened Candidates
  import opened ContextStages
  import opened Greedy

  datatype Policy = Policy(
    maxInput: nat, reserve: nat, maxSingle: nat, quotas: map<string, real>, order: seq<string>)

  function Available(p: Policy): int {
    p.maxInput - p.reserve
  }

  predicate PolicyOk(p: Policy) {
    && 0 < p.maxInput && p.reserve < p.maxInput && 0 < p.maxSingle
    && forall b :: b in p.quotas ==> 0.0 <= p.quotas[b] <= 1.0
  }

  datatype Allocation = Allocation(
    available: int, reserve: int, protectedTokens: int, selectedTokens: int, rendered: int,
    bucketTokens: map<string, int>)

  datatype Outcome<+T> = Fits(value: T) | Exhausted(required: int, available: int)

  function TokensOf(c: Candidate): int { c.tokens }

  function Tokens(cs: seq<Candidate>): int {
    Sum(Map(cs, TokensOf))
  }

  function InBucket(b: string): Candidate -> bool {
    (c: Candidate) => c.bucket == b
  }

  function BucketSum(cs: seq<Candidate>, b: string): int {
    Tokens(Filter(cs, InBucket(b)))
  }

  function Buckets(cs: seq<Candidate>): (bs: set<string>)
    ensures forall b :: b in bs <==> exists i :: 0 <= i < |cs| && cs[i].bucket == b
  {
    set i | 0 <= i < |cs| :: cs[i].bucket
  }

  /** The tokens of each bucket: those with a quota, and those that occur. */
  function BucketTokens(p: Policy, cs: seq<Candidate>): map<string, int> {
    map b | b in p.quotas.Keys + Buckets(cs) :: BucketSum(cs, b)
  }

  lemma TokensPush(cs: seq<Candidate>, c: Candidate)
    ensures Tokens(cs + [c]) == Tokens(cs) + c.tokens
  {
    var m := Map(cs + [c], TokensOf);
    assert m[..|cs|] == Map(cs, TokensOf);
  }

  lemma TokensConcat(a: seq<Candidate>, b: seq<Candidate>)
    ensures Tokens(a + b) == Tokens(a) + Tokens(b)
  {
    assert Map(a + b, TokensOf) == Map(a, TokensOf) + Map(b, TokensOf);
    SumConcat(Map(a, TokensOf), Map(b, TokensOf));
  }

  lemma {:induction false} TokensNat(cs: seq<Candidate>)
    ensures 0 <= Tokens(cs)
  {
    if cs != [] {
      assert cs == cs[..|cs| - 1] + [cs[|cs| - 1]];
      TokensPush(cs[..|cs| - 1], cs[|cs| - 1]);
      TokensNat(cs[..|cs| - 1]);
    }
  }

  lemma BucketPush(cs: seq<Candidate>, c: Candidate, b: string)
    ensures BucketSum(cs + [c], b) == BucketSum(cs, b) + if c.bucket == b then c.tokens else 0
  {
    assert (cs + [c])[..|cs|] == cs;
    TokensPush(Filter(cs, InBucket(b)), c);
    assert Filter(cs, InBucket(b)) + [] == Filter(cs, InBucket(b));
  }

  lemma {:induction false} NoBucket(cs: seq<Candidate>, b: string)
    requires b !in Buckets(cs)
    ensures BucketSum(cs, b) == 0
  {
    if cs != [] {
      var n := |cs| - 1;
      assert cs == cs[..n] + [cs[n]];
      BucketPush(cs[..n], cs[n], b);
      NoBucket(cs[..n], b);
    }
  }

  function Spent(bucketUsed: map<string, int>, bucket: string): int {
    if bucket in bucketUsed then bucketUsed[bucket] else 0
  }

  lemma SpentIs(p: Policy, cs: seq<Candidate>, b: string)
    ensures Spent(BucketTokens(p, cs), b) == BucketSum(cs, b)
  {
    if b !in BucketTokens(p, cs) { NoBucket(cs, b); }
  }

  lemma BucketTokensPush(p: Policy, cs: seq<Candidate>, c: Candidate)
    ensures var m := BucketTokens(p, cs);
            BucketTokens(p, cs + [c]) == m[c.bucket := Spent(m, c.bucket) + c.tokens]
  {
    var m, n := BucketTokens(p, cs), BucketTokens(p, cs + [c]);
    BucketsPush(cs, c);
    SpentIs(p, cs, c.bucket);
    hide BucketSum;
    var u := m[c.bucket := Spent(m, c.bucket) + c.tokens];
    assert n.Keys == u.Keys;
    forall b | b in n ensures n[b] == u[b] { BucketPush(cs, c, b); }
  }

  lemma BucketsPush(cs: seq<Candidate>, c: Candidate)
    ensures Buckets(cs + [c]) == Buckets(cs) + {c.bucket}
  {
    forall b ensures b in Buckets(cs + [c]) <==> b in Buckets(cs) + {c.bucket} {
      if b in Buckets(cs) {
        var i :| 0 <= i < |cs| && cs[i].bucket == b;
        assert (cs + [c])[i].bucket == b;
      }
      if b == c.bucket { assert (cs + [c])[|cs|].bucket == b; }
    }
  }

  // ---- sums over buckets ----

  ghost function SumMap(m: map<string, int>): int
    decreases |m|
  {
    if m == map[] then 0
    else
      var k :| k in m;
      m[k] + SumMap(m - {k})
  }

  lemma {:induction false} SumMapTake(m: map<string, int>, k: string)
    requires k in m
    ensures SumMap(m) == m[k] + SumMap(m - {k})
    decreases |m|
  {
    var j :| j in m && SumMap(m) == m[j] + SumMap(m - {j});
    if j != k {
      SumMapTake(m - {j}, k);
      SumMapTake(m - {k}, j);
      assert m - {j} - {k} == m - {k} - {j};
    }
  }

  lemma SumMapUpdate(m: map<string, int>, k: string, v: int)
    ensures SumMap(m[k := v]) == SumMap(m) + v - if k in m then m[k] else 0
  {
    SumMapTake(m[k := v], k);
    assert m[k := v] - {k} == m - {k};
    if k in m { SumMapTake(m, k); } else { assert m - {k} == m; }
  }

  lemma {:induction false} SumMapZero(m: map<string, int>)
    requires forall k :: k in m ==> m[k] == 0
    ensures SumMap(m) == 0
    decreases |m|
  {
    if m != map[] {
      var k :| k in m;
      SumMapTake(m, k);
      SumMapZero(m - {k});
    }
  }

  lemma SumMapAdd(m: map<string, int>, k: string, t: int)
    ensures SumMap(m[k := Spent(m, k) + t]) == SumMap(m) + t
  {
    SumMapUpdate(m, k, Spent(m, k) + t);
  }

  lemma NothingAddsUp(p: Policy)
    ensures SumMap(BucketTokens(p, [])) == Tokens([])
  {
    SumMapZero(BucketTokens(p, []));
  }

  lemma AddsUpPush(p: Policy, cs: seq<Candidate>, c: Candidate)
    requires SumMap(BucketTokens(p, cs)) == Tokens(cs)
    ensures SumMap(BucketTokens(p, cs + [c])) == Tokens(cs + [c])
  {
    hide *;
    BucketTokensPush(p, cs, c);
    TokensPush(cs, c);
    SumMapAdd(BucketTokens(p, cs), c.bucket, c.tokens);
  }

  /** The bucket totals add up to the tokens of the candidates. */
  lemma {:induction false} BucketsAddUp(p: Policy, cs: seq<Candidate>)
    ensures SumMap(BucketTokens(p, cs)) == Tokens(cs)
  {
    hide *;
    if cs == [] {
      NothingAddsUp(p);
    } else {
      var n := |cs| - 1;
      BucketsAddUp(p, cs[..n]);
      AddsUpPush(p, cs[..n], cs[n]);
      assert cs == cs[..n] + [cs[n]];
    }
  }

  // ---- the greedy pass ----

  /** What a bucket may spend of the tokens that the protected candidates leave. */
  function Limit(p: Policy, remaining: int, bucket: string): int {
    if bucket in p.quotas then (remaining as real * p.quotas[bucket]).Floor else remaining
  }

  datatype Pass = Pass(chosen: seq<Candidate>, dropped: seq<Selection>, used: int, bucketUsed: map<string, int>)

  /** Why a candidate cannot be added, if it cannot. */
  function Refusal(p: Policy, remaining: int, a: Pass, c: Candidate): Option<Reason> {
    if c.tokens > p.maxSingle then Some(CandidateTooLarge)
    else if Spent(a.bucketUsed, c.bucket) + c.tokens > Limit(p, remaining, c.bucket) then Some(BucketQuota(c.bucket))
    else if a.used + c.tokens > Available(p) then Some(InputBudget)
    else None
  }

  function PassStep(p: Policy, remaining: int, a: Pass, c: Candidate): Pass {
    match Refusal(p, remaining, a, c)
    case Some(reason) => a.(dropped := a.dropped + [Dropped(c, reason)])
    case None =>
      a.(chosen := a.chosen + [c], used := a.used + c.tokens,
         bucketUsed := a.bucketUsed[c.bucket := Spent(a.bucketUsed, c.bucket) + c.tokens])
  }

  function PassAll(p: Policy, protectedTokens: int, cs: seq<Candidate>): Pass {
    if cs == [] then Pass([], [], protectedTokens, map b | b in p.quotas :: 0)
    else
      PassStep(p, Available(p) - protectedTokens, PassAll(p, protectedTokens, cs[..|cs| - 1]), cs[|cs| - 1])
  }

  datatype Allocated = Allocated(kept: seq<Candidate>, chosen: seq<Candidate>, dropped: seq<Selection>, allocation: Allocation)

  function KeptFirst(cs: seq<Candidate>): seq<Candidate> {
    Sort(Filter(cs, Protected), Placed(DEFAULT_ORDER))
  }

  function Ranked(cs: seq<Candidate>): seq<Candidate> {
    Sort(Filter(cs, Evictable), Wins)
  }

  function Allocate(p: Policy, cs: seq<Candidate>): Outcome<Allocated> {
    var kept := KeptFirst(cs);
    if Tokens(kept) > Available(p) then Exhausted(Tokens(kept), Available(p))
    else
      var a := PassAll(p, Tokens(kept), Ranked(cs));
      Fits(Allocated(kept, a.chosen, a.dropped,
                     Allocation(Available(p), p.reserve, Tokens(kept), a.used, 0, a.bucketUsed)))
  }

  ghost predicate WithinLimits(p: Policy, remaining: int, cs: seq<Candidate>) {
    forall b :: BucketSum(cs, b) <= Limit(p, remaining, b)
  }

  ghost predicate PassOk(p: Policy, protectedTokens: int, a: Pass) {
    && a.bucketUsed == BucketTokens(p, a.chosen)
    && a.used == protectedTokens + Tokens(a.chosen)
    && a.used <= Available(p)
    && WithinLimits(p, Available(p) - protectedTokens, a.chosen)
  }

  lemma LimitsPush(p: Policy, remaining: int, cs: seq<Candidate>, c: Candidate)
    requires WithinLimits(p, remaining, cs) && BucketSum(cs, c.bucket) + c.tokens <= Limit(p, remaining, c.bucket)
    ensures WithinLimits(p, remaining, cs + [c])
  {
    hide Limit, BucketSum;
    forall b ensures BucketSum(cs + [c], b) <= Limit(p, remaining, b) { BucketPush(cs, c, b); }
  }

  lemma PassStepOk(p: Policy, protectedTokens: int, a: Pass, c: Candidate)
    requires PassOk(p, protectedTokens, a)
    ensures PassOk(p, protectedTokens, PassStep(p, Available(p) - protectedTokens, a, c))
  {
    SpentIs(p, a.chosen, c.bucket);
    BucketTokensPush(p, a.chosen, c);
    TokensPush(a.chosen, c);
    hide BucketTokens, Tokens, BucketSum, Limit, Spent, WithinLimits;
    if Refusal(p, Available(p) - protectedTokens, a, c).None? {
      LimitsPush(p, Available(p) - protectedTokens, a.chosen, c);
    }
  }

  /** A quota never exceeds what is left, and is never negative. */
  lemma LimitBounds(p: Policy, remaining: int, b: string)
    requires PolicyOk(p) && 0 <= remaining
    ensures 0 <= Limit(p, remaining, b) <= remaining
  {
    if b in p.quotas {
      var f := p.quotas[b];
      assert 0.0 <= remaining as real * f;
      assert remaining as real * f <= remaining as real * 1.0;
    }
  }

  lemma PassStartOk(p: Policy, protectedTokens: int)
    requires PolicyOk(p) && protectedTokens <= Available(p)
    ensures PassOk(p, protectedTokens, PassAll(p, protectedTokens, []))
  {
    hide Limit;
    forall b ensures BucketSum([], b) <= Limit(p, Available(p) - protectedTokens, b) {
      LimitBounds(p, Available(p) - protectedTokens, b);
    }
  }

  lemma PassUnfold(p: Policy, protectedTokens: int, cs: seq<Candidate>)
    requires cs != []
    ensures PassAll(p, protectedTokens, cs)
            == PassStep(p, Available(p) - protectedTokens, PassAll(p, protectedTokens, cs[..|cs| - 1]), cs[|cs| - 1])
  {
  }

  lemma {:induction false} PassAllOk(p: Policy, protectedTokens: int, cs: seq<Candidate>)
    requires PolicyOk(p) && protectedTokens <= Available(p)
    ensures PassOk(p, protectedTokens, PassAll(p, protectedTokens, cs))
  {
    hide *;
    if cs == [] {
      PassStartOk(p, protectedTokens);
    } else {
      PassAllOk(p, protectedTokens, cs[..|cs| - 1]);
      PassStepOk(p, protectedTokens, PassAll(p, protectedTokens, cs[..|cs| - 1]), cs[|cs| - 1]);
      PassUnfold(p, protectedTokens, cs);
    }
  }

  lemma PassStepAccounts(p: Policy, remaining: int, cs: seq<Candidate>, a: Pass, c: Candidate)
    requires Accounted(cs, Thinned(a.chosen, a.dropped))
    ensures var b := PassStep(p, remaining, a, c); Accounted(cs + [c], Thinned(b.chosen, b.dropped))
  {
    hide Accounted, Refusal;
    match Refusal(p, remaining, a, c)
    case Some(reason) => DropAccounts(cs, Thinned(a.chosen, a.dropped), c, reason);
    case None => KeepAccounts(cs, Thinned(a.chosen, a.dropped), c);
  }

  lemma {:induction false} PassAccounts(p: Policy, protectedTokens: int, cs: seq<Candidate>)
    ensures var a := PassAll(p, protectedTokens, cs); Accounted(cs, Thinned(a.chosen, a.dropped))
  {
    hide Accounted, PassStep;
    if cs == [] {
      NothingAccounted();
    } else {
      var n := |cs| - 1;
      assert cs == cs[..n] + [cs[n]];
      PassAccounts(p, protectedTokens, cs[..n]);
      PassStepAccounts(p, Available(p) - protectedTokens, cs[..n], PassAll(p, protectedTokens, cs[..n]), cs[n]);
    }
  }

  /** The chosen candidates stay in the order in which they were visited. */
  lemma {:induction false} PassSorted(p: Policy, protectedTokens: int, cs: seq<Candidate>)
    requires Sorted(cs, Wins)
    ensures Sorted(PassAll(p, protectedTokens, cs).chosen, Wins)
    ensures forall c :: c in PassAll(p, protectedTokens, cs).chosen ==> c in cs
  {
    if cs != [] {
      hide Wins, Refusal;
      var n := |cs| - 1;
      PassSorted(p, protectedTokens, cs[..n]);
      var chosen := PassAll(p, protectedTokens, cs[..n]).chosen;
      forall y | y in chosen ensures !Wins(cs[n], y) {
        var k :| 0 <= k < n && cs[k] == y;
      }
      PushSorted(chosen, cs[n], Wins);
    }
  }

  // ---- what the greedy pass decides ----

  /** c fits after the given candidates: not too large, within its bucket and within the budget. */
  predicate FitsAfter(p: Policy, protectedTokens: int, before: seq<Candidate>, c: Candidate) {
    && c.tokens <= p.maxSingle
    && BucketSum(before, c.bucket) + c.tokens <= Limit(p, Available(p) - protectedTokens, c.bucket)
    && protectedTokens + Tokens(before) + c.tokens <= Available(p)
  }

  function Fitting(p: Policy, protectedTokens: int): (seq<Candidate>, Candidate) -> bool {
    (before: seq<Candidate>, c: Candidate) => FitsAfter(p, protectedTokens, before, c)
  }

  lemma PassStepChooses(p: Policy, protectedTokens: int, a: Pass, c: Candidate)
    requires PassOk(p, protectedTokens, a)
    ensures PassStep(p, Available(p) - protectedTokens, a, c).chosen == Visit(a.chosen, c, Fitting(p, protectedTokens))
  {
    SpentIs(p, a.chosen, c.bucket);
  }

  lemma {:induction false} PassIsGreedy(p: Policy, protectedTokens: int, cs: seq<Candidate>)
    requires PolicyOk(p) && protectedTokens <= Available(p)
    ensures PassAll(p, protectedTokens, cs).chosen == Greedy.Greedy(cs, Fitting(p, protectedTokens))
  {
    hide PassStep, PassOk, PolicyOk, Visit;
    if cs != [] {
      var front := cs[..|cs| - 1];
      PassIsGreedy(p, protectedTokens, front);
      PassAllOk(p, protectedTokens, front);
      PassStepChooses(p, protectedTokens, PassAll(p, protectedTokens, front), cs[|cs| - 1]);
    }
  }

  /** The greedy choice, stated without the loop: a candidate is chosen iff it fits after the
      protected candidates and the chosen ones that win against it. */
  lemma ChosenIff(p: Policy, protectedTokens: int, cs: seq<Candidate>, c: Candidate)
    requires PolicyOk(p) && protectedTokens <= Available(p)
    requires Distinct(multiset(cs)) && Sorted(cs, Wins) && c in cs
    ensures var chosen := PassAll(p, protectedTokens, cs).chosen;
            c in chosen <==> FitsAfter(p, protectedTokens, Ahead(chosen, c, Wins), c)
  {
    PassIsGreedy(p, protectedTokens, cs);
    WinsOrders(multiset(cs));
    DistinctOnce(cs);
    hide Wins, Distinct, PolicyOk;
    GreedyIff(cs, c, Fitting(p, protectedTokens), Wins);
  }

  lemma DistinctOnce(cs: seq<Candidate>)
    requires Distinct(multiset(cs))
    ensures Once(cs)
  {
    forall i, j | 0 <= i < j < |cs| ensures cs[i] != cs[j] {
      Extract(cs, j);
      var rest := cs[..j] + cs[j + 1..];
      assert rest[i] == cs[i] && rest[i] in multiset(rest);
    }
  }

  lemma ProtectedSplit(cs: seq<Candidate>)
    ensures multiset(KeptFirst(cs)) + multiset(Ranked(cs)) == multiset(cs)
    ensures forall c :: c in KeptFirst(cs) <==> c in cs && Protected(c)
    ensures forall c :: c in Ranked(cs) <==> c in cs && !Protected(c)
  {
    hide Protected, Wins, Placed;
    FilterMembers(cs, Protected);
    FilterMembers(cs, Evictable);
    SameElements(KeptFirst(cs), Filter(cs, Protected));
    SameElements(Filter(cs, Protected), KeptFirst(cs));
    SameElements(Ranked(cs), Filter(cs, Evictable));
    SameElements(Filter(cs, Evictable), Ranked(cs));
  }

  lemma JoinAccounts(kept: seq<Candidate>, ranked: seq<Candidate>, cs: seq<Candidate>, t: Thinned)
    requires multiset(kept) + multiset(ranked) == multiset(cs) && Accounted(ranked, t)
    ensures Accounted(cs, Thinned(kept + t.kept, t.dropped))
  {
    IdsConcat(kept, t.kept);
    IdsConcat(kept, ranked);
    IdsPermuted(kept + ranked, cs);
  }

  lemma AllocateIs(p: Policy, cs: seq<Candidate>)
    requires Allocate(p, cs).Fits?
    ensures var a := Allocate(p, cs).value;
            var pass := PassAll(p, Tokens(KeptFirst(cs)), Ranked(cs));
            && a.kept == KeptFirst(cs) && a.chosen == pass.chosen && a.dropped == pass.dropped
            && Tokens(a.kept) <= Available(p)
            && a.allocation == Allocation(Available(p), p.reserve, Tokens(a.kept), pass.used, 0, pass.bucketUsed)
  {
  }

  /** Every protected candidate is kept and every other is chosen or dropped, each once. */
  lemma AllocateAccounts(p: Policy, cs: seq<Candidate>)
    requires Allocate(p, cs).Fits?
    ensures var a := Allocate(p, cs).value;
            && (forall c :: c in a.kept <==> c in cs && Protected(c))
            && (forall c :: c in a.chosen ==> c in cs && !Protected(c))
            && Accounted(cs, Thinned(a.kept + a.chosen, a.dropped))
  {
    AllocateIs(p, cs);
    ProtectedSplit(cs);
    PassAccounts(p, Tokens(KeptFirst(cs)), Ranked(cs));
    var pass := PassAll(p, Tokens(KeptFirst(cs)), Ranked(cs));
    ChosenAreRanked(p, Tokens(KeptFirst(cs)), Ranked(cs));
    hide *;
    JoinAccounts(KeptFirst(cs), Ranked(cs), cs, Thinned(pass.chosen, pass.dropped));
  }

  lemma ChosenAreRanked(p: Policy, protectedTokens: int, cs: seq<Candidate>)
    ensures forall c :: c in PassAll(p, protectedTokens, cs).chosen ==> c in cs
  {
    PassAccounts(p, protectedTokens, cs);
    SameElements(PassAll(p, protectedTokens, cs).chosen, cs);
  }

  /** The tokens of an allocation: protected tokens and bucket totals make up the selected
      tokens, which fit the budget, and no bucket is above its limit. */
  ghost predicate Balanced(p: Policy, remaining: int, a: Allocation) {
    && a.available == Available(p) && a.reserve == p.reserve
    && a.protectedTokens + SumMap(a.bucketTokens) == a.selectedTokens
    && a.selectedTokens <= a.available
    && remaining == a.available - a.protectedTokens
    && (forall b :: b in a.bucketTokens ==> 0 <= a.bucketTokens[b] <= Limit(p, remaining, b))
    && p.quotas.Keys <= a.bucketTokens.Keys
  }

  lemma BucketsBounded(p: Policy, remaining: int, cs: seq<Candidate>)
    requires WithinLimits(p, remaining, cs)
    ensures var m := BucketTokens(p, cs);
            p.quotas.Keys <= m.Keys && forall b :: b in m ==> 0 <= m[b] <= Limit(p, remaining, b)
  {
    hide Limit;
    forall b ensures 0 <= BucketSum(cs, b) { TokensNat(Filter(cs, InBucket(b))); }
  }

  lemma BalancedFrom(p: Policy, protectedTokens: int, chosen: seq<Candidate>, a: Allocation)
    requires a.available == Available(p) && a.reserve == p.reserve && a.protectedTokens == protectedTokens
    requires a.bucketTokens == BucketTokens(p, chosen)
    requires a.selectedTokens == protectedTokens + Tokens(chosen) <= Available(p)
    requires WithinLimits(p, Available(p) - protectedTokens, chosen)
    ensures Balanced(p, Available(p) - protectedTokens, a)
  {
    hide SumMap, BucketTokens, Tokens, Limit, WithinLimits;
    BucketsAddUp(p, chosen);
    BucketsBounded(p, Available(p) - protectedTokens, chosen);
  }

  lemma PassBalanced(p: Policy, protectedTokens: int, ranked: seq<Candidate>)
    requires PolicyOk(p) && protectedTokens <= Available(p)
    ensures var a := PassAll(p, protectedTokens, ranked);
            Balanced(p, Available(p) - protectedTokens,
                     Allocation(Available(p), p.reserve, protectedTokens, a.used, 0, a.bucketUsed))
  {
    PassAllOk(p, protectedTokens, ranked);
    hide PassAll, Tokens, BucketTokens, WithinLimits, PolicyOk, Balanced;
    var a := PassAll(p, protectedTokens, ranked);
    BalancedFrom(p, protectedTokens, a.chosen,
                 Allocation(Available(p), p.reserve, protectedTokens, a.used, 0, a.bucketUsed));
  }

  lemma AllocateBalanced(p: Policy, cs: seq<Candidate>)
    requires PolicyOk(p) && Allocate(p, cs).Fits?
    ensures var a := Allocate(p, cs).value; Balanced(p, Available(p) - Tokens(a.kept), a.allocation)
  {
    hide *;
    AllocateIs(p, cs);
    PassBalanced(p, Tokens(KeptFirst(cs)), Ranked(cs));
  }

  // ---- the final recalculation ----

  function Recalculate(p: Policy, selected: seq<Candidate>, rendered: int, previous: Allocation): Allocation {
    previous.(protectedTokens := Tokens(Filter(selected, Protected)), selectedTokens := Tokens(selected),
              rendered := rendered, bucketTokens := BucketTokens(p, Filter(selected, Evictable)))
  }

  lemma {:induction false} PrefixSpendsLess(cs: seq<Candidate>, k: nat, b: string)
    requires k <= |cs|
    ensures Tokens(cs[..k]) <= Tokens(cs) && BucketSum(cs[..k], b) <= BucketSum(cs, b)
    decreases |cs|
  {
    if k == |cs| {
      assert cs[..k] == cs;
    } else {
      var n := |cs| - 1;
      assert cs == cs[..n] + [cs[n]] && cs[..n][..k] == cs[..k];
      PrefixSpendsLess(cs[..n], k, b);
      TokensPush(cs[..n], cs[n]);
      BucketPush(cs[..n], cs[n], b);
    }
  }

  lemma SplitSelected(kept: seq<Candidate>, chosen: seq<Candidate>)
    requires (forall c :: c in kept ==> Protected(c)) && (forall c :: c in chosen ==> !Protected(c))
    ensures Filter(kept + chosen, Protected) == kept && Filter(kept + chosen, Evictable) == chosen
  {
    FilterConcat(kept, chosen, Protected);
    FilterConcat(kept, chosen, Evictable);
    FilterAll(kept, Protected);
    FilterNone(chosen, Protected);
    FilterNone(kept, Evictable);
    FilterAll(chosen, Evictable);
  }

  lemma PrefixWithin(p: Policy, remaining: int, cs: seq<Candidate>, k: nat)
    requires k <= |cs| && WithinLimits(p, remaining, cs)
    ensures WithinLimits(p, remaining, cs[..k]) && Tokens(cs[..k]) <= Tokens(cs)
  {
    hide Limit, BucketSum, Tokens;
    PrefixSpendsLess(cs, k, "");
    forall b ensures BucketSum(cs[..k], b) <= Limit(p, remaining, b) { PrefixSpendsLess(cs, k, b); }
  }

  lemma RecalculateIs(p: Policy, kept: seq<Candidate>, chosen: seq<Candidate>, rendered: int, previous: Allocation)
    requires (forall c :: c in kept ==> Protected(c)) && (forall c :: c in chosen ==> !Protected(c))
    ensures Recalculate(p, kept + chosen, rendered, previous)
            == previous.(protectedTokens := Tokens(kept), selectedTokens := Tokens(kept) + Tokens(chosen),
                         rendered := rendered, bucketTokens := BucketTokens(p, chosen))
  {
    SplitSelected(kept, chosen);
    TokensConcat(kept, chosen);
  }

  /** Dropping the last chosen candidates keeps the allocation balanced under the same limits. */
  lemma RecalculateBalanced(p: Policy, cs: seq<Candidate>, k: nat, rendered: int)
    requires PolicyOk(p) && Allocate(p, cs).Fits? && k <= |Allocate(p, cs).value.chosen|
    ensures var a := Allocate(p, cs).value;
            Balanced(p, Available(p) - Tokens(a.kept), Recalculate(p, a.kept + a.chosen[..k], rendered, a.allocation))
  {
    hide *;
    var a := Allocate(p, cs).value;
    AllocateIs(p, cs);
    AllocateAccounts(p, cs);
    PassAllOk(p, Tokens(a.kept), Ranked(cs));
    PassOkIs(p, Tokens(a.kept), PassAll(p, Tokens(a.kept), Ranked(cs)));
    PrefixWithin(p, Available(p) - Tokens(a.kept), a.chosen, k);
    RecalculateIs(p, a.kept, a.chosen[..k], rendered, a.allocation);
    BalancedFrom(p, Tokens(a.kept), a.chosen[..k], Recalculate(p, a.kept + a.chosen[..k], rendered, a.allocation));
  }

  lemma PassOkIs(p: Policy, protectedTokens: int, a: Pass)
    requires PassOk(p, protectedTokens, a)
    ensures WithinLimits(p, Available(p) - protectedTokens, a.chosen) && protectedTokens + Tokens(a.chosen) <= Available(p)
  {
    hide WithinLimits, Tokens, BucketTokens;
  }
}
