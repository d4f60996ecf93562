// The two stages that thin the collected candidates out: deduplication by content and
// conflict resolution by group. Both keep the winner of each class and account for the rest.

module ContextStages {
  import opened Common
  import opened Lists
  import opened Ordering
  import opened Candidates

  datatype Reason =
    | ProtectedContent | SelectedFrom(bucket: string)
    | DeduplicatedBy(winner: string) | ConflictLostTo(winner: string)
    | CandidateTooLarge | BucketQuota(bucket: string) | InputBudget | RenderedPromptBudget

  datatype Selection = Selection(id: string, selected: bool, reason: Reason, tokens: nat)

  function Dropped(c: Candidate, reason: Reason): Selection {
    Selection(c.id, false, reason, 0)
  }

  function NameOf(s: Selection): string { s.id }

  function Named(ss: seq<Selection>): (r: seq<string>)
    ensures |r| == |ss|
    ensures forall i :: 0 <= i < |ss| ==> r[i] == ss[i].id
  {
    Map(ss, NameOf)
  }

  lemma NamedConcat(a: seq<Selection>, b: seq<Selection>)
    ensures Named(a + b) == Named(a) + Named(b)
    ensures multiset(Named(a + b)) == multiset(Named(a)) + multiset(Named(b))
  {
    assert Named(a + b) == Named(a) + Named(b);
  }

  // ---- deduplication ----

  predicate SameClass(a: Candidate, b: Candidate) {
    a.bucket == b.bucket && a.content == b.content
  }

  /** The kept candidate of the same class, or the end of the list. */
  function Find(kept: seq<Candidate>, c: Candidate): (i: nat)
    ensures i <= |kept|
    ensures i < |kept| ==> SameClass(kept[i], c)
    ensures forall j :: 0 <= j < i ==> !SameClass(kept[j], c)
  {
    if kept == [] || SameClass(kept[0], c) then 0 else 1 + Find(kept[1..], c)
  }

  datatype Thinned = Thinned(kept: seq<Candidate>, dropped: seq<Selection>)

  function DedupStep(t: Thinned, c: Candidate): Thinned {
    var i := Find(t.kept, c);
    if i == |t.kept| then t.(kept := t.kept + [c])
    else
      var (winner, loser) := if Wins(c, t.kept[i]) then (c, t.kept[i]) else (t.kept[i], c);
      Thinned(t.kept[i := winner], t.dropped + [Dropped(loser, DeduplicatedBy(winner.id))])
  }

  function DedupAll(cs: seq<Candidate>): Thinned {
    if cs == [] then Thinned([], []) else DedupStep(DedupAll(cs[..|cs| - 1]), cs[|cs| - 1])
  }

  /** The candidates are visited in their default placement order. */
  function Deduplicate(cs: seq<Candidate>): Thinned {
    DedupAll(Sort(cs, Placed(DEFAULT_ORDER)))
  }

  /** Every candidate is accounted for once: kept, or dropped under its id. */
  ghost predicate Accounted(cs: seq<Candidate>, t: Thinned) {
    && multiset(t.kept) <= multiset(cs)
    && multiset(Ids(t.kept)) + multiset(Named(t.dropped)) == multiset(Ids(cs))
  }

  lemma NothingAccounted()
    ensures Accounted([], Thinned([], []))
  {
    assert Ids([]) == [] && Named([]) == [];
  }

  ghost predicate OnePerClass(kept: seq<Candidate>) {
    forall i, j :: 0 <= i < j < |kept| ==> !SameClass(kept[i], kept[j])
  }

  /** Some kept candidate of its class wins against c, or is c. */
  ghost predicate Represented(kept: seq<Candidate>, c: Candidate) {
    exists i :: 0 <= i < |kept| && SameClass(kept[i], c) && (kept[i] == c || Wins(kept[i], c))
  }

  lemma PushId(cs: seq<Candidate>, c: Candidate)
    ensures multiset(Ids(cs + [c])) == multiset(Ids(cs)) + multiset{c.id}
  {
    assert Ids(cs + [c]) == Ids(cs) + [c.id];
  }

  lemma PushNamed(ss: seq<Selection>, s: Selection)
    ensures multiset(Named(ss + [s])) == multiset(Named(ss)) + multiset{s.id}
  {
    assert Named(ss + [s]) == Named(ss) + [s.id];
  }

  lemma SwapId(cs: seq<Candidate>, i: nat, c: Candidate)
    requires i < |cs|
    ensures multiset(cs[i := c]) == multiset(cs) - multiset{cs[i]} + multiset{c}
    ensures multiset(Ids(cs[i := c])) == multiset(Ids(cs)) - multiset{cs[i].id} + multiset{c.id}
    ensures cs[i].id in Ids(cs)
  {
    assert Ids(cs[i := c]) == Ids(cs)[i := c.id];
    assert Ids(cs)[i] == cs[i].id;
  }

  /** Both outcomes of meeting a kept candidate of the same class. */
  lemma ReplaceAccounts(cs: seq<Candidate>, t: Thinned, i: nat, c: Candidate, reason: Reason)
    requires Accounted(cs, t) && i < |t.kept|
    ensures Accounted(cs + [c], Thinned(t.kept[i := c], t.dropped + [Dropped(t.kept[i], reason)]))
  {
    PushId(cs, c);
    SwapId(t.kept, i, c);
    PushNamed(t.dropped, Dropped(t.kept[i], reason));
    hide Ids, Named;
    Exchange(multiset(Ids(t.kept)), multiset(Named(t.dropped)), t.kept[i].id, c.id);
    Exchange(multiset(t.kept), multiset{}, t.kept[i], c);
  }

  lemma Exchange<T>(kept: multiset<T>, dropped: multiset<T>, a: T, b: T)
    requires a in kept
    ensures (kept - multiset{a} + multiset{b}) + (dropped + multiset{a}) == kept + dropped + multiset{b}
    ensures kept - multiset{a} + multiset{b} <= kept + multiset{b}
  {
  }

  lemma DropAccounts(cs: seq<Candidate>, t: Thinned, c: Candidate, reason: Reason)
    requires Accounted(cs, t)
    ensures Accounted(cs + [c], Thinned(t.kept, t.dropped + [Dropped(c, reason)]))
  {
    PushId(cs, c);
    PushNamed(t.dropped, Dropped(c, reason));
  }

  lemma KeepAccounts(cs: seq<Candidate>, t: Thinned, c: Candidate)
    requires Accounted(cs, t)
    ensures Accounted(cs + [c], Thinned(t.kept + [c], t.dropped))
  {
    PushId(cs, c);
    PushId(t.kept, c);
  }

  lemma DedupStepAccounts(cs: seq<Candidate>, t: Thinned, c: Candidate)
    requires Accounted(cs, t)
    ensures Accounted(cs + [c], DedupStep(t, c))
  {
    hide Accounted, Wins;
    var i := Find(t.kept, c);
    KeepAccounts(cs, t, c);
    if i < |t.kept| {
      ReplaceAccounts(cs, t, i, c, DeduplicatedBy(c.id));
      DropAccounts(cs, t, c, DeduplicatedBy(t.kept[i].id));
      assert t.kept[i := t.kept[i]] == t.kept;
    }
  }

  lemma DedupStepRepresents(t: Thinned, c: Candidate, o: Candidate)
    requires StrictOrder(Wins) && (Wins(c, o) || Wins(o, c) || o == c)
    requires forall k :: k in t.kept ==> k == c || Wins(c, k) || Wins(k, c)
    requires o == c || Represented(t.kept, o)
    ensures Represented(DedupStep(t, c).kept, o)
  {
    var i := Find(t.kept, c);
    var u := DedupStep(t, c).kept;
    if i < |t.kept| { assert t.kept[i] in t.kept; }
    if o == c {
      assert SameClass(u[i], c) && (u[i] == c || Wins(u[i], c));
    } else {
      var j :| 0 <= j < |t.kept| && SameClass(t.kept[j], o) && (t.kept[j] == o || Wins(t.kept[j], o));
      assert SameClass(u[j], o) && (u[j] == o || Wins(u[j], o));
    }
  }

  lemma DedupStepClasses(t: Thinned, c: Candidate)
    requires OnePerClass(t.kept)
    ensures OnePerClass(DedupStep(t, c).kept)
  {
  }

  lemma {:induction false} DedupAllKeeps(cs: seq<Candidate>)
    requires Distinct(multiset(cs))
    ensures Accounted(cs, DedupAll(cs)) && OnePerClass(DedupAll(cs).kept)
    ensures forall c :: c in cs ==> Represented(DedupAll(cs).kept, c)
  {
    if cs != [] {
      var n := |cs| - 1;
      var front, c := cs[..n], cs[n];
      assert cs == front + [c];
      WinsOrders(multiset(cs));
      DistinctPart(multiset(front), multiset(cs));
      hide Wins;
      DedupAllKeeps(front);
      var t := DedupAll(front);
      hide DedupStep, Represented, OnePerClass, Accounted, StrictOrder, Separates;
      DedupStepAccounts(front, t, c);
      DedupStepClasses(t, c);
      assert forall k :: k in t.kept ==> k in multiset(t.kept) && k in multiset(cs);
      forall o | o in cs ensures Represented(DedupStep(t, c).kept, o) {
        assert o in multiset(cs) && c in multiset(cs);
        DedupStepRepresents(t, c, o);
      }
    }
  }

  /** Deduplication keeps exactly one candidate of each (bucket, content) class, the one that
      wins against all others of the class, and names every other candidate as dropped. */
  lemma DeduplicateKeepsWinners(cs: seq<Candidate>)
    requires Distinct(multiset(cs))
    ensures Accounted(cs, Deduplicate(cs))
    ensures forall c :: c in Deduplicate(cs).kept <==>
              c in cs && forall o :: o in cs && SameClass(c, o) && o != c ==> Wins(c, o)
  {
    var s := Sort(cs, Placed(DEFAULT_ORDER));
    DedupAllKeeps(s);
    IdsPermuted(s, cs);
    WinsOrders(multiset(cs));
    var kept := Deduplicate(cs).kept;
    SameElements(s, cs);
    SameElements(cs, s);
    SameElements(kept, s);
    hide Wins, SameClass, Represented, Separates, Transitive, Distinct;
    forall c ensures c in kept <==> c in cs && forall o :: o in cs && SameClass(c, o) && o != c ==> Wins(c, o) {
      ClassWinner(cs, kept, c);
    }
  }

  lemma ClassWinner(cs: seq<Candidate>, kept: seq<Candidate>, c: Candidate)
    requires OnePerClass(kept) && forall o :: o in cs ==> Represented(kept, o)
    requires (forall o :: o in kept ==> o in cs) && Asymmetric(Wins)
    ensures c in kept <==> c in cs && forall o :: o in cs && SameClass(c, o) && o != c ==> Wins(c, o)
  {
    hide Wins;
    if c in kept {
      var k :| 0 <= k < |kept| && kept[k] == c;
      forall o | o in cs && SameClass(c, o) && o != c ensures Wins(c, o) {
        var i :| 0 <= i < |kept| && SameClass(kept[i], o) && (kept[i] == o || Wins(kept[i], o));
        assert SameClass(kept[i], kept[k]);
        assert i == k;
      }
    }
    if c in cs && forall o :: o in cs && SameClass(c, o) && o != c ==> Wins(c, o) {
      var i :| 0 <= i < |kept| && SameClass(kept[i], c) && (kept[i] == c || Wins(kept[i], c));
      assert kept[i] in kept;
    }
  }

  // ---- conflict resolution ----

  datatype Conflict = Conflict(group: string, winner: string, losers: seq<string>)

  /** An empty group name counts as none. */
  function GroupOf(c: Candidate): Option<string> {
    if c.group == Some("") then None else c.group
  }

  function InGroup(g: Option<string>): Candidate -> bool {
    (c: Candidate) => GroupOf(c) == g
  }

  function Free(cs: seq<Candidate>): seq<Candidate> {
    Filter(cs, InGroup(None))
  }

  function Members(cs: seq<Candidate>, g: string): seq<Candidate> {
    Filter(cs, InGroup(Some(g)))
  }

  /** The group names, in order of first appearance. */
  function Groups(cs: seq<Candidate>): seq<string> {
    if cs == [] then []
    else
      var n := |cs| - 1;
      var names := Groups(cs[..n]);
      if GroupOf(cs[n]).None? || GroupOf(cs[n]).value in names then names else names + [GroupOf(cs[n]).value]
  }

  ghost predicate HasGroup(cs: seq<Candidate>, g: string) {
    exists i :: 0 <= i < |cs| && GroupOf(cs[i]) == Some(g)
  }

  /** Each name that occurs is listed once. */
  lemma {:induction false} GroupsListed(cs: seq<Candidate>)
    ensures forall i, j :: 0 <= i < j < |Groups(cs)| ==> Groups(cs)[i] != Groups(cs)[j]
    ensures forall g :: g in Groups(cs) <==> HasGroup(cs, g)
  {
    if cs != [] {
      var n := |cs| - 1;
      GroupsListed(cs[..n]);
      assert cs == cs[..n] + [cs[n]];
      forall g ensures HasGroup(cs, g) <==> HasGroup(cs[..n], g) || GroupOf(cs[n]) == Some(g) {
        if HasGroup(cs[..n], g) {
          var i :| 0 <= i < n && GroupOf(cs[..n][i]) == Some(g);
          assert GroupOf(cs[i]) == Some(g);
        }
      }
    }
  }

  datatype Resolution = Resolution(winners: seq<Candidate>, conflicts: seq<Conflict>, dropped: seq<Selection>)

  function LostTo(winner: string): Candidate -> Selection {
    (c: Candidate) => Dropped(c, ConflictLostTo(winner))
  }

  function ResolveGroup(r: Resolution, g: string, members: seq<Candidate>): Resolution
    requires members != []
  {
    var winner := Best(members);
    var losers := Filter(members, NotNamed(winner.id));
    if losers == [] then r.(winners := r.winners + [winner])
    else
      Resolution(r.winners + [winner], r.conflicts + [Conflict(g, winner.id, Ids(losers))],
                 r.dropped + Map(losers, LostTo(winner.id)))
  }

  lemma GroupsHaveMembers(cs: seq<Candidate>, g: string)
    requires HasGroup(cs, g)
    ensures Members(cs, g) != []
  {
    var i :| 0 <= i < |cs| && GroupOf(cs[i]) == Some(g);
    FilterMembers(cs, InGroup(Some(g)));
    assert cs[i] in Members(cs, g);
  }

  function ResolveAll(cs: seq<Candidate>, names: seq<string>): Resolution
    requires forall g :: g in names ==> Members(cs, g) != []
  {
    if names == [] then Resolution([], [], [])
    else
      var n := |names| - 1;
      ResolveGroup(ResolveAll(cs, names[..n]), names[n], Members(cs, names[n]))
  }

  function SortedGroups(cs: seq<Candidate>): (names: seq<string>)
    ensures forall g :: g in names ==> Members(cs, g) != []
  {
    var names := Sort(Groups(cs), Before);
    GroupsListed(cs);
    assert forall g :: g in names ==> Members(cs, g) != [] by {
      forall g | g in names ensures Members(cs, g) != [] {
        assert g in multiset(names);
        GroupsHaveMembers(cs, g);
      }
    }
    names
  }

  /** Ungrouped candidates first, then the winner of each group in the order of their names. */
  function ResolveConflicts(cs: seq<Candidate>): Resolution {
    var r := ResolveAll(cs, SortedGroups(cs));
    r.(winners := Free(cs) + r.winners)
  }

  /** All members of the named groups. */
  ghost function Grouped(cs: seq<Candidate>, names: seq<string>): multiset<Candidate> {
    if names == [] then multiset{}
    else Grouped(cs, names[..|names| - 1]) + multiset(Members(cs, names[|names| - 1]))
  }

  lemma {:induction false} GroupedCounts(cs: seq<Candidate>, names: seq<string>, c: Candidate)
    requires forall i, j :: 0 <= i < j < |names| ==> names[i] != names[j]
    ensures Grouped(cs, names)[c]
            == if GroupOf(c).Some? && GroupOf(c).value in names then multiset(cs)[c] else 0
  {
    if names != [] {
      var n := |names| - 1;
      GroupedCounts(cs, names[..n], c);
      FilterCounts(cs, InGroup(Some(names[n])), c);
      assert names == names[..n] + [names[n]];
    }
  }

  lemma SortedGroupsAre(cs: seq<Candidate>)
    ensures forall i, j :: 0 <= i < j < |SortedGroups(cs)| ==> SortedGroups(cs)[i] != SortedGroups(cs)[j]
    ensures forall g :: g in SortedGroups(cs) <==> g in Groups(cs)
  {
    var names, sorted := Groups(cs), SortedGroups(cs);
    GroupsListed(cs);
    assert forall g :: g in sorted <==> g in multiset(sorted);
    DistinctCounts(names);
    CountsDistinct(sorted);
  }

  lemma {:induction false} DistinctCounts(names: seq<string>)
    requires forall i, j :: 0 <= i < j < |names| ==> names[i] != names[j]
    ensures forall g :: multiset(names)[g] <= 1
  {
    if names != [] {
      var n := |names| - 1;
      assert names == names[..n] + [names[n]];
      DistinctCounts(names[..n]);
      assert names[n] !in names[..n];
    }
  }

  lemma CountsDistinct(names: seq<string>)
    requires forall g :: multiset(names)[g] <= 1
    ensures forall i, j :: 0 <= i < j < |names| ==> names[i] != names[j]
  {
    forall i, j | 0 <= i < j < |names| ensures names[i] != names[j] {
      Extract(names, j);
      var rest := names[..j] + names[j + 1..];
      assert rest[i] == names[i];
      assert multiset(rest)[names[j]] == 0;
    }
  }

  lemma FreeAndGrouped(cs: seq<Candidate>)
    ensures multiset(Free(cs)) + Grouped(cs, SortedGroups(cs)) == multiset(cs)
  {
    hide *;
    SortedGroupsAre(cs);
    forall c ensures (multiset(Free(cs)) + Grouped(cs, SortedGroups(cs)))[c] == multiset(cs)[c] {
      FreeCounts(cs, c);
      GroupedCounts(cs, SortedGroups(cs), c);
      if c in multiset(cs) && GroupOf(c).Some? { GroupIsListed(cs, c); }
    }
  }

  lemma FreeCounts(cs: seq<Candidate>, c: Candidate)
    ensures multiset(Free(cs))[c] == if GroupOf(c).None? then multiset(cs)[c] else 0
  {
    FilterCounts(cs, InGroup(None), c);
  }

  lemma GroupIsListed(cs: seq<Candidate>, c: Candidate)
    requires c in multiset(cs) && GroupOf(c).Some?
    ensures GroupOf(c).value in Groups(cs)
  {
    var i :| 0 <= i < |cs| && cs[i] == c;
    GroupsListed(cs);
    assert HasGroup(cs, GroupOf(c).value);
  }

  /** The winners are among the members, and each member is a winner or named as dropped. */
  ghost predicate Resolved(members: multiset<Candidate>, ids: multiset<string>, r: Resolution) {
    && multiset(r.winners) <= members
    && multiset(Ids(r.winners)) + multiset(Named(r.dropped)) == ids
  }

  ghost function GroupedIds(cs: seq<Candidate>, names: seq<string>): multiset<string> {
    if names == [] then multiset{}
    else GroupedIds(cs, names[..|names| - 1]) + multiset(Ids(Members(cs, names[|names| - 1])))
  }

  lemma LostNames(losers: seq<Candidate>, winner: string)
    ensures Named(Map(losers, LostTo(winner))) == Ids(losers)
  {
  }

  lemma ResolveGroupAccounts(members: multiset<Candidate>, ids: multiset<string>, r: Resolution,
                             g: string, group: seq<Candidate>)
    requires Resolved(members, ids, r) && group != [] && Distinct(multiset(group))
    ensures Resolved(members + multiset(group), ids + multiset(Ids(group)), ResolveGroup(r, g, group))
  {
    var winner := Best(group);
    hide Wins, Best, Distinct, Filter, Ids, Named, ResolveGroup;
    RemoveOne(group, winner);
    assert winner in multiset(group);
    PushId(r.winners, winner);
    var losers := Filter(group, NotNamed(winner.id));
    NamedConcat(r.dropped, Map(losers, LostTo(winner.id)));
    LostNames(losers, winner.id);
    Regroup(multiset(Ids(r.winners)), multiset(Named(r.dropped)), multiset(Ids(losers)), winner.id);
  }

  lemma Regroup<T>(winners: multiset<T>, dropped: multiset<T>, losers: multiset<T>, w: T)
    ensures (winners + multiset{w}) + (dropped + losers) == (winners + dropped) + (losers + multiset{w})
  {
  }

  lemma {:induction false} ResolveAllAccounts(cs: seq<Candidate>, names: seq<string>)
    requires Distinct(multiset(cs)) && forall g :: g in names ==> Members(cs, g) != []
    ensures Resolved(Grouped(cs, names), GroupedIds(cs, names), ResolveAll(cs, names))
  {
    if names == [] {
      assert Ids([]) == [] && Named([]) == [];
    } else {
      var n := |names| - 1;
      ResolveAllAccounts(cs, names[..n]);
      var group := Members(cs, names[n]);
      FilterMembers(cs, InGroup(Some(names[n])));
      assert Distinct(multiset(group));
      ResolveGroupAccounts(Grouped(cs, names[..n]), GroupedIds(cs, names[..n]), ResolveAll(cs, names[..n]), names[n], group);
    }
  }

  ghost function Flat(cs: seq<Candidate>, names: seq<string>): seq<Candidate> {
    if names == [] then [] else Flat(cs, names[..|names| - 1]) + Members(cs, names[|names| - 1])
  }

  lemma {:induction false} FlatIs(cs: seq<Candidate>, names: seq<string>)
    ensures multiset(Flat(cs, names)) == Grouped(cs, names)
    ensures multiset(Ids(Flat(cs, names))) == GroupedIds(cs, names)
  {
    if names == [] {
      assert Ids([]) == [];
    } else {
      var n := |names| - 1;
      FlatIs(cs, names[..n]);
      IdsConcat(Flat(cs, names[..n]), Members(cs, names[n]));
    }
  }

  /** Conflict resolution accounts for every candidate once. */
  lemma ResolveAccounts(cs: seq<Candidate>)
    requires Distinct(multiset(cs))
    ensures var r := ResolveConflicts(cs); Accounted(cs, Thinned(r.winners, r.dropped))
  {
    var names := SortedGroups(cs);
    ResolveAllAccounts(cs, names);
    FreeAndGrouped(cs);
    FlatIs(cs, names);
    IdsConcat(Free(cs), ResolveAll(cs, names).winners);
    IdsConcat(Free(cs), Flat(cs, names));
    IdsPermuted(Free(cs) + Flat(cs, names), cs);
  }

  lemma {:induction false} WinnersAre(cs: seq<Candidate>, names: seq<string>)
    requires forall g :: g in names ==> Members(cs, g) != []
    ensures var r := ResolveAll(cs, names);
            |r.winners| == |names| && forall i :: 0 <= i < |names| ==> r.winners[i] == Best(Members(cs, names[i]))
  {
    hide Best, Members;
    if names != [] { WinnersAre(cs, names[..|names| - 1]); }
  }

  lemma WinnerOfGroup(cs: seq<Candidate>, g: string, c: Candidate)
    requires c in cs && GroupOf(c) == Some(g)
    ensures Members(cs, g) != []
    ensures c in ResolveAll(cs, SortedGroups(cs)).winners <==> c == Best(Members(cs, g))
  {
    var names := SortedGroups(cs);
    SortedGroupsAre(cs);
    var i :| 0 <= i < |cs| && cs[i] == c;
    GroupsListed(cs);
    assert HasGroup(cs, g);
    assert g in names;
    WinnersAre(cs, names);
    hide Best, SortedGroups, ResolveAll, Wins;
    var ws := ResolveAll(cs, names).winners;
    var k :| 0 <= k < |names| && names[k] == g;
    assert ws[k] == Best(Members(cs, g));
    if c in ws {
      var j :| 0 <= j < |ws| && ws[j] == c;
      FilterMembers(cs, InGroup(Some(names[j])));
      assert ws[j] in Members(cs, names[j]);
    }
  }

  /** A candidate survives conflict resolution iff it has no group or wins against every other
      member of its group. */
  lemma ResolveKeepsWinners(cs: seq<Candidate>, c: Candidate)
    requires Distinct(multiset(cs)) && c in cs
    ensures c in ResolveConflicts(cs).winners <==>
              GroupOf(c).None? || forall o :: o in cs && GroupOf(o) == GroupOf(c) && o != c ==> Wins(c, o)
  {
    FilterMembers(cs, InGroup(None));
    hide Wins, Best, SortedGroups, ResolveAll, Distinct;
    if GroupOf(c).Some? {
      WinnerOfGroup(cs, GroupOf(c).value, c);
      GroupWinner(cs, GroupOf(c).value, c);
      assert c !in Free(cs);
    }
  }

  lemma GroupWinner(cs: seq<Candidate>, g: string, c: Candidate)
    requires Distinct(multiset(cs)) && c in cs && GroupOf(c) == Some(g)
    ensures Members(cs, g) != []
    ensures c == Best(Members(cs, g)) <==> forall o :: o in cs && GroupOf(o) == Some(g) && o != c ==> Wins(c, o)
  {
    var group := Members(cs, g);
    FilterMembers(cs, InGroup(Some(g)));
    assert c in group && Distinct(multiset(group));
    WinsOrders(multiset(cs));
    hide Wins, Best;
    forall o | o in group ensures Best(group) == o || Wins(Best(group), o) { BestWins(group, o); }
    var w := Best(group);
    assert w in group;
  }
}
