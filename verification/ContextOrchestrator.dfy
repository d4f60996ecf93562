// The orchestrator as it is written: loops over dictionaries, lists and counters. Every
// method is proved to compute what the stages of the assembly say.

module ContextOrchestrator {
  import opened Common
  import opened Lists
  import opened Ordering
  import opened Candidates
  import opened ContextStages
  import opened ContextBudget
  import opened PromptRender
  import opened ContextPipeline
  import opened ContextAssembly

  type ClassKey = (string, string)

  function KeyOf(c: Candidate): ClassKey {
    (c.bucket, c.content)
  }

  /** The dictionary of winners, read in insertion order. */
  ghost predicate Holds(byKey: map<ClassKey, Candidate>, keys: seq<ClassKey>, kept: seq<Candidate>) {
    && |keys| == |kept|
    && (forall i :: 0 <= i < |keys| ==> keys[i] in byKey && byKey[keys[i]] == kept[i] && KeyOf(kept[i]) == keys[i])
    && (forall i, j :: 0 <= i < j < |keys| ==> keys[i] != keys[j])
    && (forall k :: k in byKey ==> k in keys)
  }

  lemma InsertKey(byKey: map<ClassKey, Candidate>, keys: seq<ClassKey>, kept: seq<Candidate>, c: Candidate)
    requires Holds(byKey, keys, kept) && KeyOf(c) !in byKey
    ensures Holds(byKey[KeyOf(c) := c], keys + [KeyOf(c)], kept + [c])
  {
    assert forall i :: 0 <= i < |keys| ==> keys[i] != KeyOf(c);
  }

  lemma ReplaceKey(byKey: map<ClassKey, Candidate>, keys: seq<ClassKey>, kept: seq<Candidate>, i: nat, c: Candidate)
    requires Holds(byKey, keys, kept) && i < |keys| && keys[i] == KeyOf(c)
    ensures Holds(byKey[KeyOf(c) := c], keys, kept[i := c])
  {
  }

  class Orchestrator {
    const policy: Policy

    constructor (policy: Policy)
      ensures this.policy == policy
    {
      this.policy := policy;
    }

    method Deduplicate(candidates: seq<Candidate>) returns (kept: seq<Candidate>, dropped: seq<Selection>)
      ensures Thinned(kept, dropped) == ContextStages.Deduplicate(candidates)
    {
      hide Wins;
      var sorted := Sort(candidates, Placed(DEFAULT_ORDER));
      var byKey: map<ClassKey, Candidate>, keys: seq<ClassKey> := map[], [];
      dropped := [];
      ghost var t := Thinned([], []);
      for i := 0 to |sorted|
        invariant t == DedupAll(sorted[..i]) && t.dropped == dropped && Holds(byKey, keys, t.kept)
      {
        var c := sorted[i];
        assert sorted[..i + 1][..i] == sorted[..i];
        Irreflexive(c);
        ghost var was, at := t.kept, Find(t.kept, c);
        t := DedupStep(t, c);
        hide Find, DedupStep;
        if KeyOf(c) !in byKey {
          InsertKey(byKey, keys, was, c);
          byKey, keys := byKey[KeyOf(c) := c], keys + [KeyOf(c)];
        } else {
          var existing := byKey[KeyOf(c)];
          var winner := if Wins(c, existing) then c else existing;
          var loser := if winner == existing then c else existing;
          ReplaceKey(byKey, keys, was, at, winner);
          byKey := byKey[KeyOf(c) := winner];
          dropped := dropped + [Dropped(loser, DeduplicatedBy(winner.id))];
        }
      }
      assert sorted[..|sorted|] == sorted;
      kept := seq(|keys|, i requires 0 <= i < |keys| && keys[i] in byKey => byKey[keys[i]]);
    }

    method ResolveConflicts(candidates: seq<Candidate>) returns (r: Resolution)
      ensures r == ContextStages.ResolveConflicts(candidates)
    {
      var free, groups, names := CollectGroups(candidates);
      var sorted := Sort(names, Before);
      var winners, conflicts, dropped := [], [], [];
      assert sorted == SortedGroups(candidates);
      for i := 0 to |sorted|
        invariant Resolution(winners, conflicts, dropped) == ResolveAll(candidates, sorted[..i])
      {
        hide Best, Wins, Members, SortedGroups;
        assert sorted[..i + 1][..i] == sorted[..i] && sorted[i] in sorted;
        NameListed(candidates, sorted[i]);
        var group := groups[sorted[i]];
        var winner := Best(group);
        var losers := Filter(group, NotNamed(winner.id));
        winners := winners + [winner];
        if losers != [] {
          conflicts := conflicts + [Conflict(sorted[i], winner.id, Ids(losers))];
          dropped := dropped + Map(losers, LostTo(winner.id));
        }
      }
      assert sorted[..|sorted|] == sorted;
      r := Resolution(free + winners, conflicts, dropped);
    }

    /** The ungrouped candidates and the groups, each in order of appearance. */
    method CollectGroups(candidates: seq<Candidate>)
      returns (free: seq<Candidate>, groups: map<string, seq<Candidate>>, names: seq<string>)
      ensures Collected(candidates, free, groups, names)
    {
      free, groups, names := [], map[], [];
      for i := 0 to |candidates|
        invariant Collected(candidates[..i], free, groups, names)
      {
        var c := candidates[i];
        assert candidates[..i + 1] == candidates[..i] + [c];
        hide Collected, GroupOf;
        match GroupOf(c)
        case None =>
          free := free + [c];
        case Some(g) =>
          CollectMember(candidates[..i], c, free, groups, names, g);
          names := if g in groups then names else names + [g];
          groups := groups[g := (if g in groups then groups[g] else []) + [c]];
      }
      assert candidates[..|candidates|] == candidates;
    }

    method Allocate(candidates: seq<Candidate>) returns (r: Outcome<Allocated>)
      ensures r == ContextBudget.Allocate(policy, candidates)
    {
      hide Wins, Placed;
      var available := Available(policy);
      var kept := Sort(Filter(candidates, Protected), Placed(DEFAULT_ORDER));
      var evictable := Sort(Filter(candidates, Evictable), Wins);
      var protectedTokens := Tokens(kept);
      if protectedTokens > available { return Exhausted(protectedTokens, available); }
      var pass := Spend(protectedTokens, evictable);
      r := Fits(Allocated(kept, pass.chosen, pass.dropped,
                          Allocation(available, policy.reserve, protectedTokens, pass.used, 0, pass.bucketUsed)));
    }

    /** The greedy pass over the evictable candidates. */
    method Spend(protectedTokens: int, evictable: seq<Candidate>) returns (pass: Pass)
      ensures pass == PassAll(policy, protectedTokens, evictable)
    {
      var available := Available(policy);
      var remaining := available - protectedTokens;
      var limits := map b | b in policy.quotas :: (remaining as real * policy.quotas[b]).Floor;
      assert forall b :: (if b in limits then limits[b] else remaining) == Limit(policy, remaining, b);
      hide Limit;
      var chosen, dropped, used, bucketUsed := [], [], protectedTokens, map b | b in policy.quotas :: 0;
      for i := 0 to |evictable|
        invariant Pass(chosen, dropped, used, bucketUsed) == PassAll(policy, protectedTokens, evictable[..i])
      {
        var c := evictable[i];
        ghost var a := Pass(chosen, dropped, used, bucketUsed);
        assert evictable[..i + 1][..i] == evictable[..i];
        assert PassAll(policy, protectedTokens, evictable[..i + 1]) == PassStep(policy, remaining, a, c);
        var limit := if c.bucket in limits then limits[c.bucket] else remaining;
        var current := if c.bucket in bucketUsed then bucketUsed[c.bucket] else 0;
        assert limit == Limit(policy, remaining, c.bucket) && current == Spent(bucketUsed, c.bucket);
        hide PassAll, Spent;
        if c.tokens > policy.maxSingle {
          dropped := dropped + [Dropped(c, CandidateTooLarge)];
        } else if current + c.tokens > limit {
          dropped := dropped + [Dropped(c, BucketQuota(c.bucket))];
        } else if used + c.tokens > available {
          dropped := dropped + [Dropped(c, InputBudget)];
        } else {
          chosen, used := chosen + [c], used + c.tokens;
          bucketUsed := bucketUsed[c.bucket := current + c.tokens];
        }
      }
      assert evictable[..|evictable|] == evictable;
      pass := Pass(chosen, dropped, used, bucketUsed);
    }

    method FitRenderedBudget(selected: seq<Candidate>, records: seq<Selection>) returns (r: Outcome<Fitted>)
      ensures r == FitAll(policy, selected, records, [])
    {
      hide Worst, Prompt, TokenCount;
      var current, currentRecords, dropped := selected, records, [];
      while true
        invariant FitAll(policy, current, currentRecords, dropped) == FitAll(policy, selected, records, [])
        decreases |current|
      {
        var tokens := TokenCount(Prompt(current, policy.order));
        if tokens <= Available(policy) { return Fits(Fitted(current, currentRecords, dropped)); }
        var droppable := Filter(current, Evictable);
        if droppable == [] { return Exhausted(tokens, Available(policy)); }
        var loser := Worst(droppable);
        FilterMembers(current, Evictable);
        FilterShorter(current, loser);
        current := Filter(current, NotNamed(loser.id));
        currentRecords := Filter(currentRecords, NotFor(loser.id));
        dropped := dropped + [Dropped(loser, RenderedPromptBudget)];
      }
    }

    method RecalculateAllocation(selected: seq<Candidate>, rendered: int, previous: Allocation) returns (a: Allocation)
      ensures a == Recalculate(policy, selected, rendered, previous)
    {
      hide Tokens, BucketTokens, Protected;
      var bucketUsed := map b | b in policy.quotas :: 0;
      NoTokens(policy);
      for i := 0 to |selected|
        invariant bucketUsed == BucketTokens(policy, Filter(selected[..i], Evictable))
      {
        var c := selected[i];
        assert selected[..i + 1][..i] == selected[..i];
        BucketTokensPush(policy, Filter(selected[..i], Evictable), c);
        if !Protected(c) {
          bucketUsed := bucketUsed[c.bucket := (if c.bucket in bucketUsed then bucketUsed[c.bucket] else 0) + c.tokens];
        }
        assert Filter(selected[..i], Evictable) + [] == Filter(selected[..i], Evictable);
      }
      assert selected[..|selected|] == selected;
      a := previous.(protectedTokens := Tokens(Filter(selected, Protected)), selectedTokens := Tokens(selected),
                     rendered := rendered, bucketTokens := bucketUsed);
    }

    method Assemble(candidates: seq<Candidate>) returns (r: Outcome<Assembly>)
      ensures r == ContextAssembly.Assemble(policy, candidates)
    {
      var kept, duplicates := Deduplicate(candidates);
      var resolved := ResolveConflicts(kept);
      var within := Allocate(resolved.winners);
      if within.Exhausted? { return Exhausted(within.required, within.available); }
      var a := within.value;
      var fitted := FitRenderedBudget(a.kept + a.chosen, Records(a.kept + a.chosen));
      if fitted.Exhausted? { return Exhausted(fitted.required, fitted.available); }
      var f := fitted.value;
      var prompt := Prompt(f.selected, policy.order);
      var allocation := RecalculateAllocation(f.selected, TokenCount(prompt), a.allocation);
      r := Fits(Assembly(prompt, Sections(f.selected, policy.order), f.selected, f.records,
                         duplicates + resolved.dropped + a.dropped + f.dropped, resolved.conflicts, allocation));
    }
  }

  lemma Irreflexive(c: Candidate)
    ensures !Wins(c, c)
  {
    LexTrichotomy(WinnerKey(c), WinnerKey(c));
  }

  lemma NameListed(cs: seq<Candidate>, g: string)
    requires g in SortedGroups(cs)
    ensures g in Groups(cs) && Members(cs, g) != []
  {
    SortedGroupsAre(cs);
  }

  lemma NoMembers(cs: seq<Candidate>, g: string)
    requires g !in Groups(cs)
    ensures Members(cs, g) == []
  {
    GroupsListed(cs);
    assert !HasGroup(cs, g);
    FilterNone(cs, InGroup(Some(g)));
  }

  /** The dictionary of groups, read in insertion order. */
  ghost predicate Collected(cs: seq<Candidate>, free: seq<Candidate>, groups: map<string, seq<Candidate>>, names: seq<string>) {
    && free == Free(cs) && names == Groups(cs)
    && (forall g :: g in groups <==> g in names)
    && (forall g :: g in groups ==> groups[g] == Members(cs, g))
  }

  lemma MembersPush(cs: seq<Candidate>, c: Candidate)
    ensures forall g :: Members(cs + [c], g) == if GroupOf(c) == Some(g) then Members(cs, g) + [c] else Members(cs, g)
  {
    forall g ensures Members(cs + [c], g) == if GroupOf(c) == Some(g) then Members(cs, g) + [c] else Members(cs, g) {
      FilterPush(cs, c, InGroup(Some(g)));
    }
  }

  lemma GroupsPush(cs: seq<Candidate>, c: Candidate)
    ensures Groups(cs + [c])
            == if GroupOf(c).None? || GroupOf(c).value in Groups(cs) then Groups(cs) else Groups(cs) + [GroupOf(c).value]
  {
    assert (cs + [c])[..|cs|] == cs;
  }

  lemma CollectMember(cs: seq<Candidate>, c: Candidate, free: seq<Candidate>, groups: map<string, seq<Candidate>>,
                      names: seq<string>, g: string)
    requires Collected(cs, free, groups, names) && GroupOf(c) == Some(g)
    ensures var was := if g in groups then groups[g] else [];
            Collected(cs + [c], free, groups[g := was + [c]], if g in groups then names else names + [g])
  {
    FilterPush(cs, c, InGroup(None));
    MembersPush(cs, c);
    GroupsPush(cs, c);
    if g !in groups { NoMembers(cs, g); }
    hide Members, Groups, GroupOf, Free;
  }

  lemma NoTokens(p: Policy)
    ensures BucketTokens(p, Filter([], Evictable)) == map b | b in p.quotas :: 0
  {
  }
}
