// The rules of context assembly, said of the fields of the candidates and the policy: what is
// preferred, what is protected, why something was left out, and what the budget is.

module ContextRules {
  import opened Common
  import opened Lists
  import opened Ordering
  import opened Candidates
  import opened ContextStages
  import opened ContextBudget
  import opened PromptRender
  import opened ContextPipeline
  import opened ContextAssembly

  // ---- preference ----

  predicate MoreTrusted(a: Trust, b: Trust) {
    match a
    case System => b != System
    case TrustedLocal => b in {User, ToolOutput, ExternalUntrusted}
    case User => b in {ToolOutput, ExternalUntrusted}
    case ToolOutput => b == ExternalUntrusted
    case ExternalUntrusted => false
  }

  predicate SameStanding(a: Candidate, b: Candidate) {
    a.trust == b.trust && (a.kind == Fact <==> b.kind == Fact)
  }

  /** The more trusted; then the fact; then the higher priority; then the fresher; then the
      smaller id. */
  predicate Preferred(a: Candidate, b: Candidate) {
    || MoreTrusted(a.trust, b.trust)
    || (a.trust == b.trust && a.kind == Fact && b.kind != Fact)
    || (SameStanding(a, b) && a.priority > b.priority)
    || (SameStanding(a, b) && a.priority == b.priority && a.freshness > b.freshness)
    || (SameStanding(a, b) && a.priority == b.priority && a.freshness == b.freshness && Before(a.id, b.id))
  }

  lemma KeyTail(a: Candidate, b: Candidate)
    ensures Wins(a, b) <==>
              var k, l := WinnerKey(a), WinnerKey(b);
              || k[0] < l[0]
              || (k[0] == l[0] && k[1] < l[1])
              || (k[0] == l[0] && k[1] == l[1] && k[2] < l[2])
              || (k[0] == l[0] && k[1] == l[1] && k[2] == l[2] && k[3] < l[3])
              || (k[0] == l[0] && k[1] == l[1] && k[2] == l[2] && k[3] == l[3] && LexLess(k[4..], l[4..]))
  {
    var k, l := WinnerKey(a), WinnerKey(b);
    LexHead(k, l);
    LexHead(k[1..], l[1..]);
    LexHead(k[2..], l[2..]);
    LexHead(k[3..], l[3..]);
    assert k[1..][1..] == k[2..] && l[1..][1..] == l[2..];
    assert k[2..][1..] == k[3..] && l[2..][1..] == l[3..];
    assert k[3..][1..] == k[4..] && l[3..][1..] == l[4..];
    hide LexLess;
  }

  lemma WinsIff(a: Candidate, b: Candidate)
    ensures Wins(a, b) <==> Preferred(a, b)
  {
    KeyTail(a, b);
    hide LexLess, Wins;
    assert WinnerKey(a)[4..] == Codes(a.id) && WinnerKey(b)[4..] == Codes(b.id);
    hide Codes;
    TrustRankIff(a.trust, b.trust);
  }

  lemma TrustRankIff(a: Trust, b: Trust)
    ensures TrustRank(a) < TrustRank(b) <==> MoreTrusted(a, b)
    ensures TrustRank(a) == TrustRank(b) <==> a == b
  {
  }

  /** Placement: the bucket named earlier, then the higher priority, then the smaller id. */
  lemma PlacedIff(a: Candidate, b: Candidate, order: seq<string>)
    ensures Placed(order)(a, b) <==>
              var i, j := BucketRank(order, a.bucket), BucketRank(order, b.bucket);
              i < j || (i == j && (a.priority > b.priority || (a.priority == b.priority && Before(a.id, b.id))))
  {
    var k, l := StableKey(a, order), StableKey(b, order);
    LexHead(k, l);
    LexHead(k[1..], l[1..]);
    assert k[1..][1..] == k[2..] == Codes(a.id) && l[1..][1..] == l[2..] == Codes(b.id);
    hide LexLess, Codes, BucketRank;
  }

  /** The buckets in the order that holds where the policy's own does not apply; any other bucket
      comes after them. */
  lemma DefaultBuckets(bucket: string)
    ensures BucketRank(DEFAULT_ORDER, bucket)
            == if bucket == "protected" then 0 else if bucket == "context" then 1 else if bucket == "task" then 2
               else if bucket == "retrieval" then 3 else if bucket == "recent" then 4 else if bucket == "tool" then 5
               else if bucket == "user" then 6 else 7
  {
    FirstPlace(DEFAULT_ORDER, bucket);
    hide BucketRank;
  }

  lemma FirstPlace(order: seq<string>, bucket: string)
    ensures var r := BucketRank(order, bucket);
            && (forall i :: 0 <= i < r ==> order[i] != bucket) && (r < |order| ==> order[r] == bucket)
  {
    var r := BucketRank(order, bucket);
    hide BucketRank;
    forall i | 0 <= i < r ensures order[i] != bucket { assert order[i] in order[..r] || r == |order|; }
  }

  // ---- who survives ----

  predicate Twins(a: Candidate, b: Candidate) {
    a.bucket == b.bucket && a.content == b.content
  }

  predicate Rivals(a: Candidate, b: Candidate) {
    a.group.Some? && a.group == b.group && a.group.value != ""
  }

  /** Of two candidates in one bucket with one content, the less preferred one is a duplicate. */
  lemma DuplicatesGo(cs: seq<Candidate>, c: Candidate)
    requires Distinct(multiset(cs))
    ensures c in Deduplicate(cs).kept <==> c in cs && forall o :: o in cs && Twins(c, o) && o != c ==> Preferred(c, o)
  {
    DeduplicateKeepsWinners(cs);
    hide Wins, Preferred, Distinct, Deduplicate;
    forall o ensures Wins(c, o) <==> Preferred(c, o) { WinsIff(c, o); }
    forall o ensures SameClass(c, o) <==> Twins(c, o) {}
  }

  /** Of two members of one conflict group, the less preferred one goes. */
  lemma LosersGo(cs: seq<Candidate>, c: Candidate)
    requires Distinct(multiset(cs)) && c in cs
    ensures c in ResolveConflicts(cs).winners <==> forall o :: o in cs && Rivals(c, o) && o != c ==> Preferred(c, o)
  {
    ResolveKeepsWinners(cs, c);
    hide Wins, Preferred, Distinct, ResolveConflicts;
    forall o ensures Wins(c, o) <==> Preferred(c, o) { WinsIff(c, o); }
    forall o ensures Rivals(c, o) <==> GroupOf(c).Some? && GroupOf(o) == GroupOf(c) {}
  }

  /** Within one conflict group, and equally in one duplicate class, a higher priority beats any
      freshness once trust and kind are equal. */
  lemma PriorityBeatsFreshness(cs: seq<Candidate>, a: Candidate, b: Candidate)
    requires Distinct(multiset(cs)) && a in cs && b in cs && SameStanding(a, b) && a.priority > b.priority
    ensures Rivals(a, b) ==> b !in ResolveConflicts(cs).winners
    ensures Twins(a, b) ==> b !in Deduplicate(cs).kept
  {
    assert !Preferred(b, a) && a != b;
    assert Rivals(b, a) <==> Rivals(a, b);
    hide Preferred, Distinct;
    LosersGo(cs, b);
    DuplicatesGo(cs, b);
  }

  // ---- protection ----

  /** Never dropped for budget: not external, and pinned, in a top layer, a constraint, evidence,
      or a todo that is still open. */
  predicate OffLimits(c: Candidate) {
    && c.trust != ExternalUntrusted
    && (|| c.pinned
        || c.layer == L0 || c.layer == L1
        || c.kind == Constraint || c.kind == EvidenceRef
        || (c.kind == Todo && !c.resolved))
  }

  /** What allocation keeps whatever it costs, and what it may refuse. */
  lemma KeptIff(p: Policy, cs: seq<Candidate>, c: Candidate)
    requires Allocate(p, cs).Fits?
    ensures var a := Allocate(p, cs).value;
            && (c in a.kept <==> c in cs && OffLimits(c))
            && (c in a.chosen ==> c in cs && !OffLimits(c))
  {
    AllocateAccounts(p, cs);
    hide Allocate;
  }

  // ---- why something was left out ----

  /** A duplicate is excluded in the name of a preferred candidate with its bucket and content. */
  ghost predicate NamesTwin(cs: seq<Candidate>, s: Selection) {
    exists c, w :: c in cs && w in cs && Twins(c, w) && Preferred(w, c) && s == Selection(c.id, false, DeduplicatedBy(w.id), 0)
  }

  lemma {:induction false} StepNamesTwin(cs: seq<Candidate>, t: Thinned, c: Candidate)
    requires Distinct(multiset(cs + [c])) && (forall k :: k in t.kept ==> k in cs)
    requires forall s :: s in t.dropped ==> NamesTwin(cs, s)
    ensures forall k :: k in DedupStep(t, c).kept ==> k in cs + [c]
    ensures forall s :: s in DedupStep(t, c).dropped ==> NamesTwin(cs + [c], s)
  {
    var all := cs + [c];
    assert forall x :: x in cs ==> x in all;
    forall s | s in t.dropped ensures NamesTwin(all, s) {
      var d, w :| d in cs && w in cs && Twins(d, w) && Preferred(w, d) && s == Selection(d.id, false, DeduplicatedBy(w.id), 0);
      assert d in all && w in all;
    }
    var i := Find(t.kept, c);
    if i < |t.kept| {
      var k := t.kept[i];
      assert k in t.kept && k in all && c in all && k != c by { NotTwice(cs, c, k); }
      WinsOrders(multiset(all));
      assert k in multiset(all) && c in multiset(all);
      WinsIff(c, k);
      WinsIff(k, c);
      hide Wins, Preferred, Distinct;
      var w, l := if Wins(c, k) then c else k, if Wins(c, k) then k else c;
      assert NamesTwin(all, Selection(l.id, false, DeduplicatedBy(w.id), 0));
    }
  }

  lemma NotTwice(cs: seq<Candidate>, c: Candidate, k: Candidate)
    requires Distinct(multiset(cs + [c])) && k in cs
    ensures k != c
  {
    assert multiset(cs + [c])[c] == multiset(cs)[c] + 1;
  }

  lemma {:induction false} AllNameTwins(cs: seq<Candidate>)
    requires Distinct(multiset(cs))
    ensures forall k :: k in DedupAll(cs).kept ==> k in cs
    ensures forall s :: s in DedupAll(cs).dropped ==> NamesTwin(cs, s)
  {
    if cs != [] {
      var n := |cs| - 1;
      assert cs == cs[..n] + [cs[n]];
      DistinctPart(multiset(cs[..n]), multiset(cs));
      AllNameTwins(cs[..n]);
      hide DedupStep, NamesTwin, Distinct;
      StepNamesTwin(cs[..n], DedupAll(cs[..n]), cs[n]);
    }
  }

  lemma DuplicatesExplained(cs: seq<Candidate>)
    requires Distinct(multiset(cs))
    ensures forall s :: s in Deduplicate(cs).dropped ==> NamesTwin(cs, s)
  {
    var sorted := Sort(cs, Placed(DEFAULT_ORDER));
    AllNameTwins(sorted);
    SameElements(sorted, cs);
    hide Preferred, DedupAll, Sort, Twins;
    forall s | s in DedupAll(sorted).dropped ensures NamesTwin(cs, s) {
      var d, w :| d in sorted && w in sorted && Twins(d, w) && Preferred(w, d)
                  && s == Selection(d.id, false, DeduplicatedBy(w.id), 0);
      assert d in cs && w in cs;
    }
  }

  /** A conflict is recorded with its group, the member preferred to all others, and exactly the
      others, each of them excluded in its name. */
  ghost predicate TellsConflict(cs: seq<Candidate>, k: Conflict, dropped: seq<Selection>) {
    exists w ::
      && w in Members(cs, k.group) && k.winner == w.id && k.losers != []
      && (forall o :: o in Members(cs, k.group) && o != w ==> Preferred(w, o))
      && multiset(k.losers) + multiset{w.id} == multiset(Ids(Members(cs, k.group)))
      && forall l :: l in k.losers ==> Selection(l, false, ConflictLostTo(w.id), 0) in dropped
  }

  lemma BestPreferred(group: seq<Candidate>)
    requires Distinct(multiset(group)) && group != []
    ensures forall o :: o in group && o != Best(group) ==> Preferred(Best(group), o)
  {
    hide Preferred, Wins, Best, Distinct;
    forall o | o in group && o != Best(group) ensures Preferred(Best(group), o) {
      BestWins(group, o);
      WinsIff(Best(group), o);
    }
  }

  lemma LosersDropped(losers: seq<Candidate>, w: Candidate, dropped: seq<Selection>)
    ensures forall l :: l in Ids(losers) ==> Selection(l, false, ConflictLostTo(w.id), 0) in dropped + Map(losers, LostTo(w.id))
  {
    forall l | l in Ids(losers) ensures Selection(l, false, ConflictLostTo(w.id), 0) in dropped + Map(losers, LostTo(w.id)) {
      var i :| 0 <= i < |losers| && Ids(losers)[i] == l;
      assert Map(losers, LostTo(w.id))[i] in Map(losers, LostTo(w.id));
    }
  }

  lemma Alone(group: seq<Candidate>, w: Candidate)
    requires Distinct(multiset(group)) && w in group
    ensures multiset(Ids(Filter(group, NotNamed(w.id)))) + multiset{w.id} == multiset(Ids(group))
    ensures Filter(group, NotNamed(w.id)) == [] <==> |group| == 1
  {
    RemoveOne(group, w);
    var losers := Filter(group, NotNamed(w.id));
    hide Filter, Distinct;
    assert |multiset(Ids(losers))| == |losers| && |multiset(Ids(group))| == |group|;
    assert |multiset(Ids(losers)) + multiset{w.id}| == |multiset(Ids(losers))| + 1;
  }

  lemma GroupDistinct(cs: seq<Candidate>, g: string)
    requires Distinct(multiset(cs))
    ensures Distinct(multiset(Members(cs, g)))
  {
    FilterMembers(cs, InGroup(Some(g)));
  }

  lemma GroupTold(cs: seq<Candidate>, r: Resolution, g: string)
    requires Distinct(multiset(cs)) && Members(cs, g) != []
    ensures var q := ResolveGroup(r, g, Members(cs, g));
            && r.dropped <= q.dropped
            && (q.conflicts == r.conflicts
                || (q.conflicts == r.conflicts + [q.conflicts[|r.conflicts|]] && q.conflicts[|r.conflicts|].group == g
                    && TellsConflict(cs, q.conflicts[|r.conflicts|], q.dropped)))
            && (q.conflicts == r.conflicts <==> |Members(cs, g)| == 1)
  {
    var group := Members(cs, g);
    GroupDistinct(cs, g);
    BestPreferred(group);
    Alone(group, Best(group));
    var w := Best(group);
    var losers := Filter(group, NotNamed(w.id));
    LosersDropped(losers, w, r.dropped);
    hide Preferred, Distinct, Members, Best, Wins, Filter;
    if losers != [] {
      assert TellsConflict(cs, Conflict(g, w.id, Ids(losers)), r.dropped + Map(losers, LostTo(w.id)));
    }
    hide TellsConflict;
  }

  lemma StaysTold(cs: seq<Candidate>, k: Conflict, dropped: seq<Selection>, more: seq<Selection>)
    requires TellsConflict(cs, k, dropped) && dropped <= more
    ensures TellsConflict(cs, k, more)
  {
    hide Preferred, Members;
  }

  lemma {:induction false} ConflictsTold(cs: seq<Candidate>, names: seq<string>)
    requires Distinct(multiset(cs)) && forall g :: g in names ==> Members(cs, g) != []
    ensures var r := ResolveAll(cs, names);
            && (forall k :: k in r.conflicts ==> k.group in names && TellsConflict(cs, k, r.dropped))
            && (forall g :: g in names && |Members(cs, g)| > 1 ==> exists k :: k in r.conflicts && k.group == g)
  {
    hide Members, TellsConflict, Distinct, ResolveGroup;
    if names != [] {
      var n := |names| - 1;
      var front, g := names[..n], names[n];
      ConflictsTold(cs, front);
      var r := ResolveAll(cs, front);
      GroupTold(cs, r, g);
      var q := ResolveAll(cs, names);
      forall k | k in q.conflicts ensures k.group in names && TellsConflict(cs, k, q.dropped) {
        if k in r.conflicts { StaysTold(cs, k, r.dropped, q.dropped); }
      }
      forall h | h in names && |Members(cs, h)| > 1 ensures exists k :: k in q.conflicts && k.group == h {
        if h in front {
          var k :| k in r.conflicts && k.group == h;
          assert k in q.conflicts;
        } else {
          assert h == g && q.conflicts[|r.conflicts|] in q.conflicts;
        }
      }
    }
  }

  /** Every group of two or more has its conflict recorded, and every record is true. */
  lemma ConflictsExplained(cs: seq<Candidate>)
    requires Distinct(multiset(cs))
    ensures var r := ResolveConflicts(cs);
            && (forall k :: k in r.conflicts ==> TellsConflict(cs, k, r.dropped))
            && (forall g :: HasGroup(cs, g) && |Members(cs, g)| > 1 ==> exists k :: k in r.conflicts && k.group == g)
  {
    hide Members, TellsConflict, Distinct, SortedGroups, ResolveAll, HasGroup;
    ConflictsTold(cs, SortedGroups(cs));
    SortedGroupsAre(cs);
    GroupsListed(cs);
  }

  ghost predicate NamesRise(names: seq<string>) {
    forall i, j :: 0 <= i < j < |names| ==> Before(names[i], names[j])
  }

  lemma GroupNamesRise(cs: seq<Candidate>)
    ensures NamesRise(SortedGroups(cs))
  {
    SortedGroupsAre(cs);
    BeforeOrders(Groups(cs));
    SortSorted(Groups(cs), Before);
    var names := SortedGroups(cs);
    hide Before, SortedGroups, Groups;
    SortedIs(cs);
    forall i, j | 0 <= i < j < |names| ensures Before(names[i], names[j]) { BeforeTotal(names[i], names[j]); }
  }

  lemma SortedIs(cs: seq<Candidate>)
    ensures SortedGroups(cs) == Sort(Groups(cs), Before)
  {
  }

  function GroupName(k: Conflict): string { k.group }

  lemma {:induction false} ReportedInOrder(cs: seq<Candidate>, names: seq<string>)
    requires NamesRise(names) && forall g :: g in names ==> Members(cs, g) != []
    ensures var r := ResolveAll(cs, names);
            && NamesRise(Map(r.conflicts, GroupName)) && (forall k :: k in r.conflicts ==> k.group in names)
            && |r.winners| == |names| && forall i :: 0 <= i < |names| ==> r.winners[i] in Members(cs, names[i])
  {
    hide Members, Before, ResolveGroup, Best;
    if names != [] {
      var n := |names| - 1;
      assert forall i :: 0 <= i < n ==> names[..n][i] == names[i];
      ReportedInOrder(cs, names[..n]);
      OneMoreReported(ResolveAll(cs, names[..n]), names, Members(cs, names[n]));
    }
  }

  lemma OneMoreReported(r: Resolution, names: seq<string>, members: seq<Candidate>)
    requires names != [] && members != [] && NamesRise(names) && NamesRise(Map(r.conflicts, GroupName))
    requires forall k :: k in r.conflicts ==> k.group in names[..|names| - 1]
    ensures var q := ResolveGroup(r, names[|names| - 1], members);
            && NamesRise(Map(q.conflicts, GroupName)) && (forall k :: k in q.conflicts ==> k.group in names)
            && q.winners == r.winners + [Best(members)]
  {
    hide Before, Filter, Best;
    var g := names[|names| - 1];
    var q := ResolveGroup(r, g, members);
    forall i, j | 0 <= i < j < |q.conflicts| ensures Before(q.conflicts[i].group, q.conflicts[j].group) {
      if j < |r.conflicts| {
        assert Before(Map(r.conflicts, GroupName)[i], Map(r.conflicts, GroupName)[j]);
      } else {
        assert r.conflicts[i] in r.conflicts;
        var m :| 0 <= m < |names| - 1 && names[m] == r.conflicts[i].group;
        assert q.conflicts[j].group == g && Before(names[m], names[|names| - 1]);
      }
    }
  }

  /** Conflicts are reported in the order of their group names, and the survivors are those
      without a group, as they came, and then one for each group in the order of the names. */
  lemma ConflictsInOrder(cs: seq<Candidate>) returns (names: seq<string>)
    ensures var (r, free) := (ResolveConflicts(cs), Filter(cs, (c: Candidate) => c.group.None? || c.group == Some("")));
            && NamesRise(Map(r.conflicts, GroupName))
            && NamesRise(names) && |r.winners| == |free| + |names| && r.winners[..|free|] == free
            && forall i :: 0 <= i < |names| ==> r.winners[|free| + i].group == Some(names[i])
  {
    hide *;
    names := SortedGroups(cs);
    GroupNamesRise(cs);
    ResolveIs(cs);
    OnePerGroup(cs, names);
    FreeOnes(cs, (c: Candidate) => c.group.None? || c.group == Some(""));
  }

  lemma ResolveIs(cs: seq<Candidate>)
    ensures forall g :: g in SortedGroups(cs) ==> Members(cs, g) != []
    ensures var r := ResolveAll(cs, SortedGroups(cs));
            ResolveConflicts(cs).winners == Free(cs) + r.winners && ResolveConflicts(cs).conflicts == r.conflicts
  {
    var names := SortedGroups(cs);
    hide SortedGroups, ResolveAll, Members, Free;
  }

  lemma OnePerGroup(cs: seq<Candidate>, names: seq<string>)
    requires NamesRise(names) && forall g :: g in names ==> Members(cs, g) != []
    ensures var r := ResolveAll(cs, names);
            && NamesRise(Map(r.conflicts, GroupName)) && |r.winners| == |names|
            && forall i :: 0 <= i < |names| ==> r.winners[i].group == Some(names[i])
  {
    ReportedInOrder(cs, names);
    hide ResolveAll, NamesRise, Members;
    var winners := ResolveAll(cs, names).winners;
    forall i | 0 <= i < |names| ensures winners[i].group == Some(names[i]) { MemberOf(cs, names[i], winners[i]); }
  }

  lemma {:induction false} FreeOnes(cs: seq<Candidate>, keep: Candidate -> bool)
    requires forall c :: keep(c) <==> c.group.None? || c.group == Some("")
    ensures Free(cs) == Filter(cs, keep)
  {
    if cs != [] { FreeOnes(cs[..|cs| - 1], keep); }
  }

  lemma MemberOf(cs: seq<Candidate>, g: string, c: Candidate)
    requires c in Members(cs, g)
    ensures c.group == Some(g)
  {
    FilterMembers(cs, InGroup(Some(g)));
  }

  // ---- the budget ----

  /** A bucket with a quota may spend the floor of its share of what the protected candidates
      leave, and a bucket without one all of it. */
  lemma LimitIs(p: Policy, remaining: int, bucket: string)
    ensures bucket in p.quotas ==>
              Limit(p, remaining, bucket) as real <= remaining as real * p.quotas[bucket] < Limit(p, remaining, bucket) as real + 1.0
    ensures bucket !in p.quotas ==> Limit(p, remaining, bucket) == remaining
  {
  }

  /** Why a candidate is refused after the given chosen ones: it is too large by itself, or too
      large for its bucket, or too large for what is left; the first of these that applies. */
  ghost predicate RefusedFor(p: Policy, protectedTokens: int, before: seq<Candidate>, c: Candidate, reason: Reason) {
    var left := p.maxInput - p.reserve - protectedTokens;
    var bucketFull := Tokens(Filter(before, InBucket(c.bucket))) + c.tokens > Limit(p, left, c.bucket);
    match reason
    case CandidateTooLarge => c.tokens > p.maxSingle
    case BucketQuota(b) => b == c.bucket && c.tokens <= p.maxSingle && bucketFull
    case InputBudget => c.tokens <= p.maxSingle && !bucketFull && Tokens(before) + c.tokens > left
    case _ => false
  }

  lemma RefusalIs(p: Policy, protectedTokens: int, a: Pass, c: Candidate)
    requires PassOk(p, protectedTokens, a)
    ensures var r := Refusal(p, Available(p) - protectedTokens, a, c);
            && (r.Some? ==> RefusedFor(p, protectedTokens, a.chosen, c, r.value))
            && (r.None? ==> FitsAfter(p, protectedTokens, a.chosen, c))
  {
    SpentIs(p, a.chosen, c.bucket);
    hide Tokens, BucketTokens, Limit, WithinLimits, Spent;
  }

  lemma {:induction false} DropsLast(p: Policy, protectedTokens: int, cs: seq<Candidate>, k: nat)
    requires PolicyOk(p) && protectedTokens <= Available(p) && k < |cs|
    ensures var r := Refusal(p, Available(p) - protectedTokens, PassAll(p, protectedTokens, cs[..k]), cs[k]);
            r.Some? ==> Dropped(cs[k], r.value) in PassAll(p, protectedTokens, cs).dropped
  {
    hide Refusal;
    var n := |cs| - 1;
    if k < n {
      DropsLast(p, protectedTokens, cs[..n], k);
      assert cs[..n][..k] == cs[..k];
    }
  }

  /** A candidate that is not chosen is excluded for the reason that holds after the chosen ones
      preferred to it. */
  lemma RefusalExplained(p: Policy, protectedTokens: int, cs: seq<Candidate>, k: nat) returns (reason: Reason)
    requires PolicyOk(p) && protectedTokens <= Available(p) && Distinct(multiset(cs)) && Sorted(cs, Wins) && k < |cs|
    requires cs[k] !in PassAll(p, protectedTokens, cs).chosen
    ensures var a := PassAll(p, protectedTokens, cs);
            && Selection(cs[k].id, false, reason, 0) in a.dropped
            && RefusedFor(p, protectedTokens, Filter(a.chosen, c => Preferred(c, cs[k])), cs[k], reason)
  {
    ChosenIff(p, protectedTokens, cs, cs[k]);
    VisitedBefore(p, protectedTokens, cs, k);
    DropsLast(p, protectedTokens, cs, k);
    PassAllOk(p, protectedTokens, cs[..k]);
    RefusalIs(p, protectedTokens, PassAll(p, protectedTokens, cs[..k]), cs[k]);
    PreferredAhead(PassAll(p, protectedTokens, cs).chosen, cs[k]);
    hide Distinct, Sorted, Refusal, PassAll, RefusedFor, FitsAfter, Wins, Preferred, Filter;
    reason := Refusal(p, Available(p) - protectedTokens, PassAll(p, protectedTokens, cs[..k]), cs[k]).value;
  }

  lemma VisitedBefore(p: Policy, protectedTokens: int, cs: seq<Candidate>, k: nat)
    requires PolicyOk(p) && protectedTokens <= Available(p) && Distinct(multiset(cs)) && Sorted(cs, Wins) && k < |cs|
    ensures Greedy.Ahead(PassAll(p, protectedTokens, cs).chosen, cs[k], Wins) == PassAll(p, protectedTokens, cs[..k]).chosen
  {
    PassIsGreedy(p, protectedTokens, cs);
    PassIsGreedy(p, protectedTokens, cs[..k]);
    WinsOrders(multiset(cs));
    DistinctOnce(cs);
    hide Wins, Distinct, PolicyOk, PassAll;
    Greedy.AheadIsVisited(cs, k, Fitting(p, protectedTokens), Wins);
  }

  lemma {:induction false} PreferredAhead(chosen: seq<Candidate>, x: Candidate)
    ensures Filter(chosen, c => Preferred(c, x)) == Greedy.Ahead(chosen, x, Wins)
  {
    if chosen != [] {
      var n := |chosen| - 1;
      PreferredAhead(chosen[..n], x);
      WinsIff(chosen[n], x);
      hide Wins, Preferred;
    }
  }

  /** The size of a prompt: a token for every four characters begun, and none without any. */
  lemma TokenCountIs(text: string)
    ensures |text| <= 4 * TokenCount(text) < |text| + 4
    ensures forall m: int :: TokenCount(text) <= m <==> |text| <= 4 * m
  {
  }

  /** A prompt leaves room for the answer: what the model may be given, less what is reserved. */
  lemma PromptLeavesReserve(p: Policy, candidates: seq<Candidate>)
    requires Distinct(multiset(candidates)) && Assemble(p, candidates).Fits?
    ensures var r := Assemble(p, candidates).value;
            && |r.prompt| <= 4 * (p.maxInput - p.reserve)
            && r.allocation.available == p.maxInput - p.reserve && r.allocation.reserve == p.reserve
            && 4 * r.allocation.rendered < |r.prompt| + 4 && |r.prompt| <= 4 * r.allocation.rendered
  {
    var j := LongestFittingPrefix(p, candidates);
    Stages(p, candidates);
    AllocateIs(p, Survivors(candidates));
    TokenCountIs(Assemble(p, candidates).value.prompt);
    hide Assemble, Survivors, Allocate, TokenCount, FitAll;
  }

  /** The failure, in characters and tokens: what is off limits costs more than the room there
      is, or its prompt is longer than four characters a token. */
  lemma FailsByLength(p: Policy, candidates: seq<Candidate>)
    requires Distinct(multiset(candidates))
    ensures var kept := KeptFirst(Survivors(candidates));
            Assemble(p, candidates).Exhausted?
            <==> Tokens(kept) > p.maxInput - p.reserve || |Prompt(kept, p.order)| > 4 * (p.maxInput - p.reserve)
  {
    FailsIffProtectedTooBig(p, candidates);
    TokenCountIs(Prompt(KeptFirst(Survivors(candidates)), p.order));
    hide Assemble, Survivors, KeptFirst, TokenCount, Tokens, Prompt;
  }

  /** A failure says what is available, and what the protected survivors need: their tokens if
      those alone are too many, else the size of their prompt. */
  lemma FailureReports(p: Policy, candidates: seq<Candidate>)
    requires Distinct(multiset(candidates)) && Assemble(p, candidates).Exhausted?
    ensures var (f, kept) := (Assemble(p, candidates), KeptFirst(Survivors(candidates)));
            && f.available == p.maxInput - p.reserve && f.required > f.available
            && f.required == if Tokens(kept) > p.maxInput - p.reserve then Tokens(kept) else TokenCount(Prompt(kept, p.order))
  {
    SurvivorsDistinct(candidates);
    var s := Survivors(candidates);
    if Tokens(KeptFirst(s)) <= Available(p) {
      AllocateIs(p, s);
      var j := LoopAnswer(p, s);
      hide Prompt, FitAll, KeptFirst, Tokens, Deduplicate, ResolveConflicts, TokenCount, Records;
      assert Allocate(p, s).value.kept + Allocate(p, s).value.chosen[..0] == KeptFirst(s);
    }
  }

  /** What is selected is reported with its tokens, and as protected or under its bucket. */
  lemma SelectedReported(p: Policy, candidates: seq<Candidate>, k: nat)
    requires Distinct(multiset(candidates)) && Assemble(p, candidates).Fits? && k < |Assemble(p, candidates).value.chosen|
    ensures var r := Assemble(p, candidates).value;
            && |r.selected| == |r.chosen|
            && r.selected[k] == Selection(r.chosen[k].id, true,
                                          if OffLimits(r.chosen[k]) then ProtectedContent else SelectedFrom(r.chosen[k].bucket),
                                          r.chosen[k].tokens)
  {
    var j := LongestFittingPrefix(p, candidates);
    hide Assemble, Survivors, Allocate, PromptFits, TokenCount, Available, OffLimits;
    RecordSays(Assemble(p, candidates).value.chosen, k);
    hide Records;
  }

  lemma RecordSays(chosen: seq<Candidate>, k: nat)
    requires k < |chosen|
    ensures |Records(chosen)| == |chosen|
    ensures var c := chosen[k];
            Records(chosen)[k] == Selection(c.id, true, if OffLimits(c) then ProtectedContent else SelectedFrom(c.bucket), c.tokens)
  {
  }
}
