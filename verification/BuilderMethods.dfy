// The builder and the compaction policy as they are written, with their loops.

module BuilderMethods {
  import opened Common
  import opened Lists
  import opened Greedy
  import opened BuilderStages
  import opened ContextBuilder

  class Builder {
    const digest: seq<string> -> string

    constructor (digest: seq<string> -> string)
      ensures this.digest == digest
    {
      this.digest := digest;
    }

    method ValidateItems(items: seq<Item>) returns (s: Stage)
      ensures s == Exclude(items, Invalid())
    {
      var kept, excluded := [], [];
      for i := 0 to |items|
        invariant Stage(kept, excluded) == Exclude(items[..i], Invalid())
      {
        assert items[..i + 1][..i] == items[..i];
        if Valid(items[i]) { kept := kept + [items[i]]; }
        else { excluded := excluded + [Exclusion(items[i].id, TrustViolation)]; }
      }
      assert items[..|items|] == items;
      s := Stage(kept, excluded);
    }

    method EnforceTrustBoundary(items: seq<Item>) returns (s: Stage)
      ensures s == Exclude(items, Untrusted())
    {
      var kept, excluded := [], [];
      for i := 0 to |items|
        invariant Stage(kept, excluded) == Exclude(items[..i], Untrusted())
      {
        assert items[..i + 1][..i] == items[..i];
        if items[i].external && items[i].layer in {L0, L1} {
          excluded := excluded + [Exclusion(items[i].id, TrustViolation)];
        } else {
          kept := kept + [items[i]];
        }
      }
      assert items[..|items|] == items;
      s := Stage(kept, excluded);
    }

    method ItemVisibleToView(i: Item, v: View) returns (b: bool)
      ensures b == Visible(i, v)
    {
      for k := 0 to |i.scope|
        invariant !Visible(i.(scope := i.scope[..k]), v)
      {
        var m := i.scope[k];
        var seen := i.(scope := i.scope[..k]);
        var more := i.(scope := i.scope[..k + 1]);
        assert forall j :: 0 <= j < k ==> seen.scope[j] == more.scope[j] == i.scope[j];
        assert more.scope[k] == i.scope[k];
        if m == Shared || (m == CoordinatorScope && v.role == Coordinator) || (m == ReviewerScope && v.role == Reviewer) {
          return true;
        }
        if v.role == Worker && v.task.Some? && m == WorkerScope(v.task.value) { return true; }
      }
      assert i.(scope := i.scope[..|i.scope|]) == i;
      b := false;
    }

    method ApplyRoleScope(items: seq<Item>, v: View) returns (s: Stage)
      ensures s == Exclude(items, Hidden(v))
    {
      var kept, excluded := [], [];
      for i := 0 to |items|
        invariant Stage(kept, excluded) == Exclude(items[..i], Hidden(v))
      {
        assert items[..i + 1][..i] == items[..i];
        hide Visible;
        var visible := ItemVisibleToView(items[i], v);
        if visible { kept := kept + [items[i]]; }
        else { excluded := excluded + [Exclusion(items[i].id, ScopeMismatch)]; }
      }
      assert items[..|items|] == items;
      s := Stage(kept, excluded);
    }

    method RemoveExpiredAndSuperseded(items: seq<Item>, at: int) returns (s: Stage)
      ensures s == Exclude(items, Outdated(items, at))
    {
      var targets: set<string> := {};
      for i := 0 to |items|
        invariant targets == Targets(items[..i])
      {
        TargetsPush(items[..i], items[i]);
        assert items[..i + 1] == items[..i] + [items[i]];
        if items[i].supersedes.Some? { targets := targets + {items[i].supersedes.value}; }
      }
      assert items[..|items|] == items;
      hide Targets;
      var kept, excluded := [], [];
      for i := 0 to |items|
        invariant Stage(kept, excluded) == Exclude(items[..i], Outdated(items, at))
      {
        assert items[..i + 1][..i] == items[..i];
        if !ActiveAt(items[i], at) { excluded := excluded + [Exclusion(items[i].id, Expired)]; }
        else if items[i].id in targets { excluded := excluded + [Exclusion(items[i].id, Superseded)]; }
        else { kept := kept + [items[i]]; }
      }
      s := Stage(kept, excluded);
    }

    method Deduplicate(items: seq<Item>) returns (s: Stage)
      ensures s == Duplicates(items)
    {
      var seen: set<string> := {};
      var kept, excluded := [], [];
      for i := 0 to |items|
        invariant Stage(kept, excluded) == Duplicates(items[..i])
        invariant forall x :: x in seen <==> x in Ids(kept)
      {
        assert items[..i + 1][..i] == items[..i];
        if items[i].id in seen {
          excluded := excluded + [Exclusion(items[i].id, Deduplication)];
        } else {
          assert Ids(kept + [items[i]]) == Ids(kept) + [items[i].id];
          seen := seen + {items[i].id};
          kept := kept + [items[i]];
        }
      }
      assert items[..|items|] == items;
      s := Stage(kept, excluded);
    }

    /** Greedy selection over the evictable items in keep order. */
    method SelectWithinBudget(items: seq<Item>, usable: int) returns (r: Outcome<Stage>)
      ensures r == Select(items, usable)
    {
      hide Tokens, Keeps, Ranked;
      if Tokens(items) <= usable { return Fits(Stage(items, [])); }
      var kept := Filter(items, Protected);
      var protectedTokens := Tokens(kept);
      if protectedTokens > usable { return Exhausted(protectedTokens, usable); }
      var ranked := Ranked(items);
      var chosen, excluded, used := [], [], protectedTokens;
      ghost var fits := Fitting(usable, protectedTokens);
      NoTokens([]);
      for i := 0 to |ranked|
        invariant chosen == Greedy.Greedy(ranked[..i], fits) && used == protectedTokens + Tokens(chosen)
        invariant excluded == Map(Refused(usable, protectedTokens, ranked[..i]), OverBudget)
      {
        assert ranked[..i + 1][..i] == ranked[..i];
        TokensPush(chosen, ranked[i]);
        RefusedStep(usable, protectedTokens, ranked, i);
        if used + ranked[i].tokens <= usable {
          chosen, used := chosen + [ranked[i]], used + ranked[i].tokens;
        } else {
          excluded := excluded + [OverBudget(ranked[i])];
        }
      }
      assert ranked[..|ranked|] == ranked;
      r := Fits(Stage(kept + chosen, excluded));
    }

    /** CompactionPolicy.compact: one summary for each chunk of the eligible items. */
    method CompactEvicted(kept: seq<Item>, evicted: seq<Item>, usable: int, at: int) returns (c: Compacted)
      ensures c == Compact(kept, evicted, usable, at, digest)
    {
      hide Summary, Tokens;
      if evicted == [] { return Compacted(kept, [], [], false); }
      var eligible, restored := [], [];
      for i := 0 to |evicted|
        invariant eligible == Filter(evicted[..i], Evictable) && restored == Filter(evicted[..i], Protected)
      {
        assert evicted[..i + 1][..i] == evicted[..i];
        if Protected(evicted[i]) { restored := restored + [evicted[i]]; } else { eligible := eligible + [evicted[i]]; }
      }
      assert evicted[..|evicted|] == evicted;
      var base := kept + restored;
      var summaries: seq<Item>, i := [], 0;
      while i < |eligible|
        invariant 0 <= i <= |eligible|
        invariant summaries + Summaries(Chunks(eligible[i..]), at, digest) == Summaries(Chunks(eligible), at, digest)
        decreases |eligible| - i
      {
        var end := if i + CHUNK <= |eligible| then i + CHUNK else |eligible|;
        ChunksStep(eligible, i, end, at, digest);
        summaries := summaries + [Summary(eligible[i..end], at, digest)];
        i := end;
      }
      assert eligible[|eligible|..] == [] && Summaries(Chunks([]), at, digest) == [];
      assert summaries == Summaries(Chunks(eligible), at, digest);
      c := Compacted(base + summaries, summaries, eligible, Tokens(base + summaries) > usable);
    }

    /** The facts by layer and task. */
    method GroupFacts(items: seq<Item>) returns (groups: map<Topic, seq<Item>>)
      ensures Grouped(items, groups)
    {
      groups := map[];
      for i := 0 to |items|
        invariant Grouped(items[..i], groups)
      {
        assert items[..i + 1] == items[..i] + [items[i]];
        GroupedPush(items[..i], items[i], groups);
        if items[i].kind == Fact {
          var key := TopicOf(items[i]);
          var group := if key in groups then groups[key] else [];
          groups := groups[key := group + [items[i]]];
        }
      }
      assert items[..|items|] == items;
    }

    /** The ids of all facts in a group whose contents are not all the same. */
    method CollectConflicts(items: seq<Item>, groups: map<Topic, seq<Item>>) returns (ids: set<string>)
      requires Grouped(items, groups)
      ensures ids == ConflictIds(items)
    {
      ids := {};
      var left := groups.Keys;
      while left != {}
        invariant left <= groups.Keys
        invariant forall x :: x in ids <==> exists key :: key in groups.Keys - left && IsClashing(groups[key]) && HasId(groups[key], x)
        decreases |left|
      {
        hide IsClashing, HasId, Grouped, ConflictIds;
        var key :| key in left;
        var group := groups[key];
        var contents := Contents(group);
        if |contents| > 1 {
          var members := Members(group);
          ids := ids + members;
        }
        left := left - {key};
      }
      ConflictsAre(items, groups, ids);
    }

    method Contents(group: seq<Item>) returns (contents: set<string>)
      ensures |contents| > 1 <==> IsClashing(group)
    {
      contents := {};
      for i := 0 to |group|
        invariant forall c :: c in contents <==> exists k :: 0 <= k < i && group[k].content == c
      {
        contents := contents + {group[i].content};
      }
      Several(group, contents);
    }

    method Members(group: seq<Item>) returns (ids: set<string>)
      ensures forall x :: x in ids <==> HasId(group, x)
    {
      ids := {};
      for i := 0 to |group|
        invariant forall x :: x in ids <==> exists k :: 0 <= k < i && group[k].id == x
      {
        ids := ids + {group[i].id};
      }
    }

    /** Two active facts on one topic that say different things are both left out. */
    method ResolveConflicts(items: seq<Item>) returns (s: Stage)
      ensures s == Exclude(items, Conflicts(items))
    {
      var groups := GroupFacts(items);
      var ids := CollectConflicts(items, groups);
      hide ConflictIds;
      var kept, excluded := [], [];
      for i := 0 to |items|
        invariant Stage(kept, excluded) == Exclude(items[..i], Conflicts(items))
      {
        assert items[..i + 1][..i] == items[..i];
        if items[i].id in ids { excluded := excluded + [Exclusion(items[i].id, ConflictingFacts)]; }
        else { kept := kept + [items[i]]; }
      }
      assert items[..|items|] == items;
      s := Stage(kept, excluded);
    }

    method Build(rows: seq<Item>, v: View, usable: int, at: int) returns (r: Outcome<Snapshot>)
      ensures r == ContextBuilder.Build(rows, v, usable, at, digest)
    {
      hide Exclude, Duplicates, Select, Compact, Tokens;
      var a := ValidateItems(rows);
      var b := EnforceTrustBoundary(a.kept);
      var c := ApplyRoleScope(b.kept, v);
      var d := RemoveExpiredAndSuperseded(c.kept, at);
      var e := Deduplicate(d.kept);
      var f := ResolveConflicts(e.kept);
      var excluded := a.excluded + b.excluded + c.excluded + d.excluded + e.excluded + f.excluded;
      var selection := SelectWithinBudget(f.kept, usable);
      if selection.Exhausted? { return Exhausted(selection.required, selection.usable); }
      var s := selection.value;
      if s.excluded == [] { return Fits(Snapshot(s.kept, [], excluded, Tokens(s.kept))); }
      var compacted := CompactEvicted(s.kept, Evicted(rows, s.excluded), usable, at);
      if compacted.stillOver || Tokens(compacted.final) > usable {
        var required := Tokens(Filter(compacted.final, Protected));
        if required > usable { return Exhausted(required, usable); }
      }
      r := Fits(Snapshot(compacted.final, compacted.summaries,
                         excluded + s.excluded + Map(compacted.summaries, SummaryNote), Tokens(compacted.final)));
    }
  }

  // ---- groups of facts ----

  type Topic = (Layer, Option<string>)

  function TopicOf(i: Item): Topic {
    (i.layer, i.task)
  }

  function OnTopic(key: Topic): Item -> bool {
    (i: Item) => i.kind == Fact && TopicOf(i) == key
  }

  ghost predicate Grouped(items: seq<Item>, groups: map<Topic, seq<Item>>) {
    forall key :: Filter(items, OnTopic(key)) == if key in groups then groups[key] else []
  }

  ghost predicate IsClashing(group: seq<Item>) {
    exists a, b :: 0 <= a < |group| && 0 <= b < |group| && group[a].content != group[b].content
  }

  ghost predicate HasId(group: seq<Item>, x: string) {
    exists k :: 0 <= k < |group| && group[k].id == x
  }

  lemma GroupedPush(items: seq<Item>, i: Item, groups: map<Topic, seq<Item>>)
    requires Grouped(items, groups)
    ensures i.kind != Fact ==> Grouped(items + [i], groups)
    ensures i.kind == Fact ==>
              var key := TopicOf(i);
              Grouped(items + [i], groups[key := (if key in groups then groups[key] else []) + [i]])
  {
    assert (items + [i])[..|items|] == items;
    assert forall key :: Filter(items + [i], OnTopic(key)) == Filter(items, OnTopic(key)) + if OnTopic(key)(i) then [i] else [];
  }

  lemma Several(group: seq<Item>, contents: set<string>)
    requires forall c :: c in contents <==> exists k :: 0 <= k < |group| && group[k].content == c
    ensures |contents| > 1 <==> IsClashing(group)
  {
    if a, b :| 0 <= a < |group| && 0 <= b < |group| && group[a].content != group[b].content {
      assert {group[a].content, group[b].content} <= contents;
      Subset({group[a].content, group[b].content}, contents);
    }
    if |contents| > 1 {
      var c :| c in contents;
      var d := Second(contents, c);
    }
  }

  lemma Subset(a: set<string>, b: set<string>)
    requires a <= b
    ensures |a| <= |b|
  {
    assert b == a + (b - a);
  }

  lemma Second(s: set<string>, c: string) returns (d: string)
    requires |s| > 1 && c in s
    ensures d in s && d != c
  {
    assert |s - {c}| == |s| - 1;
    d :| d in s - {c};
  }

  lemma ConflictsAre(items: seq<Item>, groups: map<Topic, seq<Item>>, ids: set<string>)
    requires Grouped(items, groups)
    requires forall x :: x in ids <==> exists key :: key in groups.Keys && IsClashing(groups[key]) && HasId(groups[key], x)
    ensures ids == ConflictIds(items)
  {
    forall x ensures x in ids <==> x in ConflictIds(items) {
      if x in ids {
        var key :| key in groups.Keys && IsClashing(groups[key]) && HasId(groups[key], x);
        ClashConflicts(items, key, x);
      }
      if x in ConflictIds(items) {
        var k :| 0 <= k < |items| && Conflicting(items, items[k]) && items[k].id == x;
        ConflictClashes(items, k);
        assert TopicOf(items[k]) in groups.Keys;
      }
    }
  }

  lemma ClashConflicts(items: seq<Item>, key: Topic, x: string)
    requires IsClashing(Filter(items, OnTopic(key))) && HasId(Filter(items, OnTopic(key)), x)
    ensures x in ConflictIds(items)
  {
    FilterMembers(items, OnTopic(key));
    var group := Filter(items, OnTopic(key));
    var a, b :| 0 <= a < |group| && 0 <= b < |group| && group[a].content != group[b].content;
    var c :| 0 <= c < |group| && group[c].id == x;
    assert group[a] in items && group[b] in items && group[c] in items;
    assert OnTopic(key)(group[a]) && OnTopic(key)(group[b]) && OnTopic(key)(group[c]);
    hide Filter;
    var i := IndexOf(items, group[a]);
    var j := IndexOf(items, group[b]);
    var k := IndexOf(items, group[c]);
    assert SameTopic(items[i], items[k]) && SameTopic(items[j], items[k]);
    assert Conflicting(items, items[k]);
  }

  lemma ConflictClashes(items: seq<Item>, k: nat)
    requires k < |items| && Conflicting(items, items[k])
    ensures var group := Filter(items, OnTopic(TopicOf(items[k])));
            IsClashing(group) && HasId(group, items[k].id) && group != []
  {
    var key := TopicOf(items[k]);
    var a, b :| 0 <= a < |items| && 0 <= b < |items| && SameTopic(items[a], items[k]) && SameTopic(items[b], items[k])
                && items[a].content != items[b].content;
    FilterMembers(items, OnTopic(key));
    var group := Filter(items, OnTopic(key));
    assert OnTopic(key)(items[a]) && OnTopic(key)(items[b]) && OnTopic(key)(items[k]);
    hide Filter;
    var i := IndexOf(group, items[a]);
    var j := IndexOf(group, items[b]);
    var l := IndexOf(group, items[k]);
  }

  lemma IndexOf(group: seq<Item>, i: Item) returns (k: nat)
    requires i in group
    ensures k < |group| && group[k] == i
  {
    k :| 0 <= k < |group| && group[k] == i;
  }

  lemma TargetsPush(items: seq<Item>, i: Item)
    ensures Targets(items + [i]) == if i.supersedes.Some? then Targets(items) + {i.supersedes.value} else Targets(items)
  {
    var all := items + [i];
    assert all[|items|] == i;
    forall x | x in Targets(items) ensures x in Targets(all) {
      var k :| 0 <= k < |items| && items[k].supersedes == Some(x);
      assert all[k].supersedes == Some(x);
    }
    if i.supersedes.Some? { assert all[|items|].supersedes == Some(i.supersedes.value); }
  }

  lemma RefusedStep(usable: int, protectedTokens: int, ranked: seq<Item>, i: nat)
    requires i < |ranked|
    ensures var fits := Fitting(usable, protectedTokens);
            Map(Refused(usable, protectedTokens, ranked[..i + 1]), OverBudget)
            == Map(Refused(usable, protectedTokens, ranked[..i]), OverBudget)
               + if fits(Greedy.Greedy(ranked[..i], fits), ranked[i]) then [] else [OverBudget(ranked[i])]
  {
    assert ranked[..i + 1][..i] == ranked[..i];
  }

  lemma ChunksStep(items: seq<Item>, i: nat, end: nat, at: int, digest: seq<string> -> string)
    requires i < |items| && end == if i + CHUNK <= |items| then i + CHUNK else |items|
    ensures Summaries(Chunks(items[i..]), at, digest)
            == [Summary(items[i..end], at, digest)] + Summaries(Chunks(items[end..]), at, digest)
  {
    hide Summary;
    var rest := items[i..];
    if |rest| > CHUNK {
      assert rest[..CHUNK] == items[i..end] && rest[CHUNK..] == items[end..];
    } else {
      assert rest == items[i..end] && items[end..] == [];
    }
  }
}
