// The context assembly from the collected candidates to the prompt, and what it promises.

module ContextAssembly {
  import opened Common
  import opened Lists
  import opened Ordering
  import opened Candidates
  import opened ContextStages
  import opened ContextBudget
  import opened PromptRender
  import opened ContextPipeline

  datatype Assembly = Assembly(
    prompt: string, sections: seq<Section>, chosen: seq<Candidate>, selected: seq<Selection>,
    excluded: seq<Selection>, conflicts: seq<Conflict>, allocation: Allocation)

  function Assemble(p: Policy, candidates: seq<Candidate>): Outcome<Assembly> {
    var thinned := Deduplicate(candidates);
    var resolved := ResolveConflicts(thinned.kept);
    match Allocate(p, resolved.winners)
    case Exhausted(required, available) => Exhausted(required, available)
    case Fits(a) =>
      var all := a.kept + a.chosen;
      match FitAll(p, all, Records(all), [])
      case Exhausted(required, available) => Exhausted(required, available)
      case Fits(f) =>
        var prompt := Prompt(f.selected, p.order);
        Fits(Assembly(prompt, Sections(f.selected, p.order), f.selected, f.records,
                      thinned.dropped + resolved.dropped + a.dropped + f.dropped, resolved.conflicts,
                      Recalculate(p, f.selected, TokenCount(prompt), a.allocation)))
  }

  /** The candidates that reach the allocation. */
  function Survivors(candidates: seq<Candidate>): seq<Candidate> {
    ResolveConflicts(Deduplicate(candidates).kept).winners
  }

  /** The order in which candidates are collected does not matter at all. */
  lemma OrderIndependent(p: Policy, a: seq<Candidate>, b: seq<Candidate>)
    requires Distinct(multiset(a)) && multiset(a) == multiset(b)
    ensures Assemble(p, a) == Assemble(p, b)
  {
    PlacedOrders(multiset(a), DEFAULT_ORDER);
    SortCanonical(a, b, Placed(DEFAULT_ORDER));
  }

  lemma SurvivorsDistinct(candidates: seq<Candidate>)
    requires Distinct(multiset(candidates))
    ensures multiset(Deduplicate(candidates).kept) <= multiset(candidates)
    ensures Distinct(multiset(Deduplicate(candidates).kept))
    ensures multiset(Survivors(candidates)) <= multiset(candidates) && Distinct(multiset(Survivors(candidates)))
  {
    var kept := Deduplicate(candidates).kept;
    DeduplicateKeepsWinners(candidates);
    DistinctPart(multiset(kept), multiset(candidates));
    ResolveAccounts(kept);
    DistinctPart(multiset(Survivors(candidates)), multiset(candidates));
  }

  /** The stages of a successful assembly. */
  lemma Stages(p: Policy, candidates: seq<Candidate>)
    requires Assemble(p, candidates).Fits?
    ensures var r := Assemble(p, candidates).value;
            var s := Survivors(candidates);
            && Allocate(p, s).Fits?
            && var a := Allocate(p, s).value;
            && var f := FitAll(p, a.kept + a.chosen, Records(a.kept + a.chosen), []);
            && f.Fits?
            && r.chosen == f.value.selected && r.selected == f.value.records
            && r.sections == Sections(r.chosen, p.order) && r.prompt == Prompt(r.chosen, p.order)
            && r.allocation == Recalculate(p, r.chosen, TokenCount(r.prompt), a.allocation)
            && r.excluded == Deduplicate(candidates).dropped + ResolveConflicts(Deduplicate(candidates).kept).dropped
                             + a.dropped + f.value.dropped
  {
  }

  lemma AllocateReady(p: Policy, cs: seq<Candidate>)
    requires Distinct(multiset(cs)) && Allocate(p, cs).Fits?
    ensures var a := Allocate(p, cs).value; Ready(a.kept, a.chosen)
  {
    AllocateIs(p, cs);
    AllocateAccounts(p, cs);
    RankedSorted(cs);
    PassSorted(p, Tokens(KeptFirst(cs)), Ranked(cs));
    hide Wins, Protected, Allocate, PassAll;
    var a := Allocate(p, cs).value;
    DistinctPart(multiset(a.kept + a.chosen), multiset(cs));
  }

  lemma RankedSorted(cs: seq<Candidate>)
    requires Distinct(multiset(cs))
    ensures Sorted(Ranked(cs), Wins) && Distinct(multiset(Ranked(cs)))
  {
    FilterMembers(cs, Evictable);
    var f := Filter(cs, Evictable);
    assert forall c :: multiset(f)[c] <= multiset(cs)[c];
    DistinctPart(multiset(f), multiset(cs));
    WinsOrders(multiset(f));
    SortSorted(f, Wins);
  }

  /** The loop on what an allocation hands over: how many of the chosen candidates stay. */
  lemma LoopAnswer(p: Policy, cs: seq<Candidate>) returns (j: nat)
    requires Distinct(multiset(cs)) && Allocate(p, cs).Fits?
    ensures var a := Allocate(p, cs).value;
            Answers(p, a.kept, a.chosen, [], j, FitAll(p, a.kept + a.chosen, Records(a.kept + a.chosen), []))
  {
    hide *;
    AllocateReady(p, cs);
    j := FitFrom(p, Allocate(p, cs).value.kept, Allocate(p, cs).value.chosen, []);
  }

  /** The selection is the protected candidates and the longest prefix of the chosen ones, in
      winner order, whose prompt fits the budget. */
  lemma LongestFittingPrefix(p: Policy, candidates: seq<Candidate>) returns (j: nat)
    requires Distinct(multiset(candidates)) && Assemble(p, candidates).Fits?
    ensures var r := Assemble(p, candidates).value;
            var s := Survivors(candidates);
            && Allocate(p, s).Fits?
            && var a := Allocate(p, s).value;
            && j <= |a.chosen| && r.chosen == a.kept + a.chosen[..j]
            && r.selected == Records(r.chosen)
            && TokenCount(r.prompt) <= Available(p)
            && forall k :: 0 <= k <= |a.chosen| ==> (PromptFits(p, a.kept + a.chosen[..k]) <==> k <= j)
  {
    Stages(p, candidates);
    SurvivorsDistinct(candidates);
    j := LoopAnswer(p, Survivors(candidates));
    var a := Allocate(p, Survivors(candidates)).value;
    hide Assemble, Allocate, FitAll, Survivors, Prompt, Recalculate, Sections, Deduplicate, ResolveConflicts;
    forall k | 0 <= k <= j ensures PromptFits(p, a.kept + a.chosen[..k]) {
      FitsDownward(p, a.kept, a.chosen, k, j);
    }
  }

  /** Assembly fails exactly when the protected candidates alone are too big: their tokens
      together, or the prompt made of them. */
  lemma FailsIffProtectedTooBig(p: Policy, candidates: seq<Candidate>)
    requires Distinct(multiset(candidates))
    ensures var kept := KeptFirst(Survivors(candidates));
            Assemble(p, candidates).Exhausted? <==> Tokens(kept) > Available(p) || !PromptFits(p, kept)
  {
    SurvivorsDistinct(candidates);
    var s := Survivors(candidates);
    if Tokens(KeptFirst(s)) <= Available(p) {
      AllocateIs(p, s);
      var j := LoopAnswer(p, s);
      var a := Allocate(p, s).value;
      assert a.kept + a.chosen[..0] == a.kept;
      hide Prompt, FitAll, KeptFirst, Tokens, Deduplicate, ResolveConflicts;
      if PromptFits(p, a.kept + a.chosen[..j]) { FitsDownward(p, a.kept, a.chosen, 0, j); }
    }
  }

  lemma BackwardsIds(cs: seq<Candidate>)
    ensures multiset(Named(Map(Backwards(cs), DroppedRecord))) == multiset(Ids(cs))
  {
    assert Named(Map(Backwards(cs), DroppedRecord)) == Ids(Backwards(cs));
    BackwardsSame(cs);
    IdsPermuted(Backwards(cs), cs);
  }

  lemma {:induction false} BackwardsSame(cs: seq<Candidate>)
    ensures multiset(Backwards(cs)) == multiset(cs)
  {
    if cs == [] {
      assert Backwards(cs) == [];
    } else {
      var n := |cs| - 1;
      BackwardsSame(cs[..n]);
      assert Backwards(cs) == [cs[n]] + Backwards(cs[..n]);
      assert cs == cs[..n] + [cs[n]];
    }
  }

  /** Each collected candidate is reported once, as selected or as excluded. */
  lemma EveryCandidateOnce(p: Policy, candidates: seq<Candidate>)
    requires Distinct(multiset(candidates)) && Assemble(p, candidates).Fits?
    ensures var r := Assemble(p, candidates).value;
            multiset(Named(r.selected)) + multiset(Named(r.excluded)) == multiset(Ids(candidates))
  {
    Stages(p, candidates);
    SurvivorsDistinct(candidates);
    DeduplicateKeepsWinners(candidates);
    var t := Deduplicate(candidates);
    ResolveAccounts(t.kept);
    var s := Survivors(candidates);
    AllocateAccounts(p, s);
    var a := Allocate(p, s).value;
    var j := LoopAnswer(p, s);
    var f := FitAll(p, a.kept + a.chosen, Records(a.kept + a.chosen), []).value;
    LoopAccounts(p, a.kept, a.chosen, j, f);
    NamedFour(t.dropped, ResolveConflicts(t.kept).dropped, a.dropped, f.dropped);
    hide *;
    Chain(multiset(Named(t.dropped)), multiset(Named(ResolveConflicts(t.kept).dropped)), multiset(Named(a.dropped)),
          multiset(Named(f.dropped)), multiset(Named(f.records)));
  }

  lemma Chain<T>(d1: multiset<T>, d2: multiset<T>, d3: multiset<T>, d4: multiset<T>, kept: multiset<T>)
    ensures kept + (d1 + d2 + d3 + d4) == (((kept + d4) + d3) + d2) + d1
  {
  }

  /** The loop reports every candidate it is given. */
  lemma LoopAccounts(p: Policy, kept: seq<Candidate>, chosen: seq<Candidate>, j: nat, f: Fitted)
    requires Answers(p, kept, chosen, [], j, Fits(f))
    ensures multiset(Named(f.records)) + multiset(Named(f.dropped)) == multiset(Ids(kept + chosen))
  {
    hide PromptFits, Prompt;
    assert f.dropped == Map(Backwards(chosen[j..]), DroppedRecord);
    BackwardsIds(chosen[j..]);
    assert Named(f.records) == Ids(kept + chosen[..j]);
    assert kept + chosen == (kept + chosen[..j]) + chosen[j..];
    IdsConcat(kept + chosen[..j], chosen[j..]);
  }

  lemma NamedFour(a: seq<Selection>, b: seq<Selection>, c: seq<Selection>, d: seq<Selection>)
    ensures multiset(Named(a + b + c + d))
            == multiset(Named(a)) + multiset(Named(b)) + multiset(Named(c)) + multiset(Named(d))
  {
    NamedConcat(a + b + c, d);
    NamedConcat(a + b, c);
    NamedConcat(a, b);
  }

  // ---- budget ----

  /** The reported allocation adds up, fits the budget and respects every bucket limit. */
  lemma FinalAllocationBalanced(p: Policy, candidates: seq<Candidate>)
    requires PolicyOk(p) && Distinct(multiset(candidates)) && Assemble(p, candidates).Fits?
    ensures var r := Assemble(p, candidates).value;
            && Balanced(p, Available(p) - Tokens(KeptFirst(Survivors(candidates))), r.allocation)
            && r.allocation.selectedTokens == Tokens(r.chosen)
            && r.allocation.rendered == TokenCount(r.prompt) <= Available(p)
  {
    hide *;
    Stages(p, candidates);
    var j := LongestFittingPrefix(p, candidates);
    AllocateIs(p, Survivors(candidates));
    var r := Assemble(p, candidates).value;
    var a := Allocate(p, Survivors(candidates)).value;
    RecalculateBalanced(p, Survivors(candidates), j, TokenCount(r.prompt));
    RecalculateReports(p, r.chosen, TokenCount(r.prompt), a.allocation);
  }

  lemma RecalculateReports(p: Policy, selected: seq<Candidate>, rendered: int, previous: Allocation)
    ensures var a := Recalculate(p, selected, rendered, previous);
            a.selectedTokens == Tokens(selected) && a.rendered == rendered
  {
  }

  // ---- trust ----

  /** Where a section may take its candidates from. */
  ghost predicate Belongs(n: SectionName, selected: seq<Candidate>, c: Candidate) {
    match n
    case RuntimeProtocol => RuntimeAt(selected) < |selected| && c == selected[RuntimeAt(selected)]
    case SelectedContext => c.trust != ExternalUntrusted
    case UntrustedData => c.trust == ExternalUntrusted
  }

  ghost predicate SectionOk(s: Section, selected: seq<Candidate>) {
    forall c :: c in selected && c.id in s.ids ==> Belongs(s.name, selected, c)
  }

  ghost predicate AllOk(ss: seq<Section>, selected: seq<Candidate>) {
    forall i :: 0 <= i < |ss| ==> SectionOk(ss[i], selected)
  }

  lemma AllOkConcat(a: seq<Section>, b: seq<Section>, selected: seq<Candidate>)
    requires AllOk(a, selected) && AllOk(b, selected)
    ensures AllOk(a + b, selected)
  {
    hide SectionOk;
  }

  lemma OnlyOne(selected: seq<Candidate>, c: Candidate, d: Candidate)
    requires Distinct(multiset(selected)) && c in selected && d in selected && c.id == d.id
    ensures c == d
  {
    assert c in multiset(selected) && d in multiset(selected);
  }

  lemma OthersRemain(cs: seq<Candidate>, i: nat)
    requires i < |cs|
    ensures forall c :: c in cs[..i] + cs[i + 1..] ==> c in cs
    ensures forall c :: c in cs ==> c in cs[..i] + cs[i + 1..] || c == cs[i]
  {
    Extract(cs, i);
    forall c | c in cs && c != cs[i] ensures c in cs[..i] + cs[i + 1..] {
      var k :| 0 <= k < |cs| && cs[k] == c;
      if k < i { assert cs[..i][k] == c; } else { assert cs[i + 1..][k - i - 1] == c; }
    }
  }

  lemma SupplementalPart(selected: seq<Candidate>)
    ensures forall c :: c in Supplemental(selected) ==> c in selected
    ensures forall c :: c in selected ==>
              c in Supplemental(selected) || (RuntimeAt(selected) < |selected| && c == selected[RuntimeAt(selected)])
  {
    var i := RuntimeAt(selected);
    hide RuntimeAt;
    if i < |selected| { OthersRemain(selected, i); }
  }

  lemma PartMembers(selected: seq<Candidate>, keep: Candidate -> bool, order: seq<string>)
    ensures forall c :: c in Sort(Filter(selected, keep), Placed(order)) <==> c in selected && keep(c)
  {
    var f := Filter(selected, keep);
    FilterMembers(selected, keep);
    SameElements(f, Sort(f, Placed(order)));
    SameElements(Sort(f, Placed(order)), f);
  }

  lemma WithId(part: seq<Candidate>, id: string) returns (c: Candidate)
    requires id in Ids(part)
    ensures c in part && c.id == id
  {
    var k :| 0 <= k < |part| && Ids(part)[k] == id;
    c := part[k];
  }

  lemma PartIs(n: SectionName, part: seq<Candidate>)
    ensures part == [] ==> PartOf(n, part) == []
    ensures part != [] ==> |PartOf(n, part)| == 1 && PartOf(n, part)[0].name == n && PartOf(n, part)[0].ids == Ids(part)
  {
    hide Block, Ids;
  }

  lemma MembersBelong(s: Section, part: seq<Candidate>, selected: seq<Candidate>)
    requires Distinct(multiset(selected)) && s.ids == Ids(part)
    requires forall c :: c in part ==> c in selected && Belongs(s.name, selected, c)
    ensures SectionOk(s, selected)
  {
    hide Belongs, Distinct, Ids;
    forall c | c in selected && c.id in s.ids ensures Belongs(s.name, selected, c) {
      var d := WithId(part, c.id);
      OnlyOne(selected, c, d);
    }
  }

  lemma PartOk(n: SectionName, part: seq<Candidate>, selected: seq<Candidate>)
    requires Distinct(multiset(selected))
    requires forall c :: c in part ==> c in selected && Belongs(n, selected, c)
    ensures AllOk(PartOf(n, part), selected)
  {
    hide Belongs, Distinct, PartOf, SectionOk;
    PartIs(n, part);
    if part != [] { MembersBelong(PartOf(n, part)[0], part, selected); }
  }

  lemma TrustedPartIs(selected: seq<Candidate>, order: seq<string>)
    ensures forall c :: c in TrustedPart(selected, order) ==> c in selected && c.trust != ExternalUntrusted
  {
    SupplementalPart(selected);
    PartMembers(Supplemental(selected), Trusted, order);
  }

  lemma UntrustedPartIs(selected: seq<Candidate>, order: seq<string>)
    ensures forall c :: c in UntrustedPart(selected, order) ==> c in selected && c.trust == ExternalUntrusted
  {
    SupplementalPart(selected);
    PartMembers(Supplemental(selected), Untrusted, order);
  }

  lemma RuntimePartOk(selected: seq<Candidate>)
    requires Distinct(multiset(selected))
    ensures AllOk(RuntimePart(selected), selected)
  {
    hide Distinct;
    var i := RuntimeAt(selected);
    forall c | c in selected && i < |selected| && c.id == selected[i].id ensures c == selected[i] {
      OnlyOne(selected, c, selected[i]);
    }
  }

  /** Every section holds only what belongs there. */
  lemma SectionsSeparate(selected: seq<Candidate>, order: seq<string>)
    requires Distinct(multiset(selected))
    ensures AllOk(Sections(selected, order), selected)
  {
    TrustedPartIs(selected, order);
    UntrustedPartIs(selected, order);
    var t, u := TrustedPart(selected, order), UntrustedPart(selected, order);
    hide TrustedPart, UntrustedPart, RuntimePart, AllOk, Distinct, PartOf;
    PartOk(SelectedContext, t, selected);
    PartOk(UntrustedData, u, selected);
    RuntimePartOk(selected);
    AllOkConcat(RuntimePart(selected), PartOf(SelectedContext, t), selected);
    AllOkConcat(RuntimePart(selected) + PartOf(SelectedContext, t), PartOf(UntrustedData, u), selected);
  }

  /** When the runtime section is trusted, external material is in the untrusted section only. */
  lemma Contained(selected: seq<Candidate>, order: seq<string>, i: nat, c: Candidate)
    requires Distinct(multiset(selected)) && i < |Sections(selected, order)|
    requires RuntimeAt(selected) < |selected| && selected[RuntimeAt(selected)].trust != ExternalUntrusted
    requires c in selected && c.id in Sections(selected, order)[i].ids
    ensures Sections(selected, order)[i].name == UntrustedData <==> c.trust == ExternalUntrusted
  {
    SectionsSeparate(selected, order);
    hide Sections, Distinct;
    assert SectionOk(Sections(selected, order)[i], selected);
  }

  /** Nothing selected is left unrendered. */
  lemma EveryoneRendered(selected: seq<Candidate>, order: seq<string>, c: Candidate)
    requires c in selected
    ensures exists i :: 0 <= i < |Sections(selected, order)| && c.id in Sections(selected, order)[i].ids
  {
    SupplementalPart(selected);
    var rest := Supplemental(selected);
    PartMembers(rest, Trusted, order);
    PartMembers(rest, Untrusted, order);
    var t, u := TrustedPart(selected, order), UntrustedPart(selected, order);
    var a := RuntimePart(selected);
    var ss := Sections(selected, order);
    if c in rest && c.trust != ExternalUntrusted {
      assert c in t;
      assert ss[|a|] == PartOf(SelectedContext, t)[0];
    } else if c in rest {
      assert c in u;
      assert ss[|a| + |PartOf(SelectedContext, t)|] == PartOf(UntrustedData, u)[0];
    } else {
      assert ss[0] == a[0] && c.id in a[0].ids;
    }
  }

  /** The candidate the orchestrator itself makes of the runtime prompt. */
  function Builtin(raw: string, sequence: int): Candidate {
    Candidate("runtime-prompt", RuntimePrompt, L0, Constraint, 1000, System, sequence, TokenCount(raw), raw,
              "protected", true, false, None, false)
  }

  /** No other candidate claims the trust of the system. */
  ghost predicate OnlySystem(b: Candidate, candidates: seq<Candidate>) {
    b in candidates && forall c :: c in candidates && c.trust == System ==> c == b
  }

  lemma SystemWins(b: Candidate, c: Candidate)
    requires b.trust == System && c.trust != System
    ensures Wins(b, c)
  {
  }

  lemma BuiltinSurvives(raw: string, sequence: int, candidates: seq<Candidate>)
    requires Distinct(multiset(candidates)) && OnlySystem(Builtin(raw, sequence), candidates)
    ensures Builtin(raw, sequence) in Survivors(candidates)
  {
    var b := Builtin(raw, sequence);
    assert b.trust == System && GroupOf(b).None?;
    DeduplicateKeepsWinners(candidates);
    SurvivorsDistinct(candidates);
    forall o | o in candidates && o != b ensures Wins(b, o) { SystemWins(b, o); }
    hide Wins, Builtin, Deduplicate, ResolveConflicts;
    assert b in Deduplicate(candidates).kept;
    ResolveKeepsWinners(Deduplicate(candidates).kept, b);
  }

  lemma ProtectedSelected(p: Policy, candidates: seq<Candidate>, c: Candidate)
    requires Distinct(multiset(candidates)) && Assemble(p, candidates).Fits?
    requires c in Survivors(candidates) && Protected(c)
    ensures c in Assemble(p, candidates).value.chosen
  {
    var j := LongestFittingPrefix(p, candidates);
    AllocateAccounts(p, Survivors(candidates));
    hide *;
    assert c in Allocate(p, Survivors(candidates)).value.kept;
  }

  lemma ChosenAreCandidates(p: Policy, candidates: seq<Candidate>)
    requires Distinct(multiset(candidates)) && Assemble(p, candidates).Fits?
    ensures Distinct(multiset(Assemble(p, candidates).value.chosen))
    ensures forall c :: c in Assemble(p, candidates).value.chosen ==> c in candidates
  {
    var s := Survivors(candidates);
    SurvivorsDistinct(candidates);
    var j := LongestFittingPrefix(p, candidates);
    var a := Allocate(p, s).value;
    AllocateReady(p, s);
    ReadyPrefix(a.kept, a.chosen, j);
    AllocateAccounts(p, s);
    hide Assemble, Allocate, Survivors, Wins, Protected;
    SameElements(s, candidates);
  }

  /** Trust containment, end to end: the built-in runtime prompt is always part of the prompt,
      external material is in the untrusted section and nowhere else, and that section holds
      nothing but external material, whatever a candidate declares about itself. */
  lemma TrustContainment(p: Policy, raw: string, sequence: int, candidates: seq<Candidate>)
    requires Distinct(multiset(candidates)) && OnlySystem(Builtin(raw, sequence), candidates)
    requires Assemble(p, candidates).Fits?
    ensures var r := Assemble(p, candidates).value;
            && Builtin(raw, sequence) in r.chosen
            && (forall i, c :: 0 <= i < |r.sections| && c in r.chosen && c.id in r.sections[i].ids ==>
                  (r.sections[i].name == UntrustedData <==> c.trust == ExternalUntrusted))
            && (forall c :: c in r.chosen && c.trust == ExternalUntrusted ==> !Protected(c))
  {
    BuiltinSurvives(raw, sequence, candidates);
    ProtectedSelected(p, candidates, Builtin(raw, sequence));
    ChosenAreCandidates(p, candidates);
    Stages(p, candidates);
    var r := Assemble(p, candidates).value;
    var j := LongestFittingPrefix(p, candidates);
    var a := Allocate(p, Survivors(candidates)).value;
    AllocateAccounts(p, Survivors(candidates));
    RuntimeIsProtected(a.kept, a.chosen[..j], Builtin(raw, sequence));
    hide *;
    forall i, c | 0 <= i < |r.sections| && c in r.chosen && c.id in r.sections[i].ids
      ensures r.sections[i].name == UntrustedData <==> c.trust == ExternalUntrusted
    {
      Contained(r.chosen, p.order, i, c);
    }
  }

  lemma RuntimeIsProtected(kept: seq<Candidate>, chosen: seq<Candidate>, b: Candidate)
    requires b in kept && b.source == RuntimePrompt && forall c :: c in kept ==> Protected(c)
    ensures RuntimeAt(kept + chosen) < |kept| && Protected((kept + chosen)[RuntimeAt(kept + chosen)])
  {
    var k :| 0 <= k < |kept| && kept[k] == b;
    var all := kept + chosen;
    assert all[k] == b;
    assert all[RuntimeAt(all)] == kept[RuntimeAt(all)];
  }

  lemma FirstRuntime(kept: seq<Candidate>, chosen: seq<Candidate>, b: Candidate, less: (Candidate, Candidate) -> bool)
    requires b in kept && b.source == RuntimePrompt
    requires Separates(multiset(kept), less) && Sorted(kept, less)
    ensures var all := kept + chosen;
            RuntimeAt(all) < |kept|
            && (all[RuntimeAt(all)] == b
                <== forall c :: c in kept && c.source == RuntimePrompt && c != b ==> less(b, c))
            && (all[RuntimeAt(all)] == b
                ==> forall c :: c in kept && c.source == RuntimePrompt && c != b ==> less(b, c))
  {
    var all := kept + chosen;
    var k :| 0 <= k < |kept| && kept[k] == b;
    assert all[k] == b;
    var i := RuntimeAt(all);
    assert i <= k && all[i] == kept[i] && kept[i] in kept;
    forall c | all[i] == b && c in kept && c.source == RuntimePrompt && c != b ensures less(b, c) {
      var n :| 0 <= n < |kept| && kept[n] == c;
      assert all[n] == c && i < n;
      assert c in multiset(kept) && b in multiset(kept);
    }
    assert i < k ==> !less(kept[k], kept[i]);
  }

  // ---- who survives, said of the candidates ----

  /** No other candidate with the same bucket and content wins against it. */
  ghost predicate Unbeaten(candidates: seq<Candidate>, c: Candidate) {
    c in candidates && forall o :: o in candidates && SameClass(c, o) && o != c ==> Wins(c, o)
  }

  /** Nor does any other such candidate of its unresolved conflict group. */
  ghost predicate Survives(candidates: seq<Candidate>, c: Candidate) {
    && Unbeaten(candidates, c)
    && (GroupOf(c).None? || forall o :: Unbeaten(candidates, o) && GroupOf(o) == GroupOf(c) && o != c ==> Wins(c, o))
  }

  lemma SurvivesIff(candidates: seq<Candidate>, c: Candidate)
    requires Distinct(multiset(candidates))
    ensures c in Survivors(candidates) <==> Survives(candidates, c)
  {
    var kept := Deduplicate(candidates).kept;
    DeduplicateKeepsWinners(candidates);
    SurvivorsDistinct(candidates);
    ResolveAccounts(kept);
    hide Distinct, Wins, SameClass, GroupOf, Deduplicate, ResolveConflicts;
    SameElements(Survivors(candidates), kept);
    if c in kept { ResolveKeepsWinners(kept, c); }
  }

  /** Another protected survivor that claims the runtime source. */
  ghost predicate Rival(candidates: seq<Candidate>, b: Candidate, c: Candidate) {
    Survives(candidates, c) && Protected(c) && c.source == RuntimePrompt && c != b
  }

  lemma RivalIff(p: Policy, candidates: seq<Candidate>, b: Candidate, c: Candidate)
    requires Distinct(multiset(candidates)) && Assemble(p, candidates).Fits?
    ensures Allocate(p, Survivors(candidates)).Fits?
    ensures Rival(candidates, b, c)
            <==> c in Allocate(p, Survivors(candidates)).value.kept && c.source == RuntimePrompt && c != b
  {
    SurvivesIff(candidates, c);
    Stages(p, candidates);
    AllocateAccounts(p, Survivors(candidates));
    hide Survives, Allocate, Survivors, Assemble, Protected;
  }

  /** The runtime section is the first one, and it is the built-in prompt iff no other candidate
      that claims the runtime source, survives and is protected, is placed before it: the
      pipeline does not reserve that source. */
  lemma RuntimeSectionIsBuiltin(p: Policy, raw: string, sequence: int, candidates: seq<Candidate>)
    requires Distinct(multiset(candidates)) && OnlySystem(Builtin(raw, sequence), candidates)
    requires Assemble(p, candidates).Fits?
    ensures var r, b := Assemble(p, candidates).value, Builtin(raw, sequence);
            && r.sections != [] && r.sections[0].name == RuntimeProtocol
            && (r.sections[0] == Section(RuntimeProtocol, [b.id], raw)
                <==> forall c :: Rival(candidates, b, c) ==> Placed(DEFAULT_ORDER)(b, c))
  {
    var b, s := Builtin(raw, sequence), Survivors(candidates);
    hide *;
    FirstIsBuiltin(p, raw, sequence, candidates);
    ChosenAreCandidates(p, candidates);
    Stages(p, candidates);
    BuiltinSelected(p, raw, sequence, candidates);
    var r := Assemble(p, candidates).value;
    RuntimeFirst(r.chosen, p.order, b, raw);
  }

  lemma BuiltinSelected(p: Policy, raw: string, sequence: int, candidates: seq<Candidate>)
    requires Distinct(multiset(candidates)) && OnlySystem(Builtin(raw, sequence), candidates)
    requires Assemble(p, candidates).Fits?
    ensures var b := Builtin(raw, sequence);
            && b in Assemble(p, candidates).value.chosen && b.source == RuntimePrompt && Protected(b)
            && b.content == raw
  {
    BuiltinSurvives(raw, sequence, candidates);
    hide Assemble, Survivors, OnlySystem, Distinct;
    ProtectedSelected(p, candidates, Builtin(raw, sequence));
  }

  /** The runtime section is made of the first selected candidate of that source. */
  lemma RuntimeFirst(selected: seq<Candidate>, order: seq<string>, b: Candidate, raw: string)
    requires Distinct(multiset(selected)) && b in selected && b.source == RuntimePrompt && b.content == raw
    ensures RuntimeAt(selected) < |selected|
    ensures Sections(selected, order) != [] && Sections(selected, order)[0].name == RuntimeProtocol
    ensures Sections(selected, order)[0] == Section(RuntimeProtocol, [b.id], raw) <==> selected[RuntimeAt(selected)] == b
  {
    var k :| 0 <= k < |selected| && selected[k] == b;
    var i := RuntimeAt(selected);
    assert i <= k;
    hide Distinct, Sections, RuntimeAt;
    RuntimeIsFirst(selected, order);
    if selected[i].id == b.id { OnlyOne(selected, selected[i], b); }
  }

  lemma RuntimeIsFirst(selected: seq<Candidate>, order: seq<string>)
    requires RuntimeAt(selected) < |selected|
    ensures Sections(selected, order) != []
    ensures var c := selected[RuntimeAt(selected)]; Sections(selected, order)[0] == Section(RuntimeProtocol, [c.id], c.content)
  {
    hide TrustedPart, UntrustedPart, PartOf, RuntimeAt;
  }

  lemma FirstIsBuiltin(p: Policy, raw: string, sequence: int, candidates: seq<Candidate>)
    requires Distinct(multiset(candidates)) && OnlySystem(Builtin(raw, sequence), candidates)
    requires Assemble(p, candidates).Fits?
    ensures var r, b := Assemble(p, candidates).value, Builtin(raw, sequence);
            && RuntimeAt(r.chosen) < |r.chosen|
            && (r.chosen[RuntimeAt(r.chosen)] == b
                <==> forall c :: Rival(candidates, b, c) ==> Placed(DEFAULT_ORDER)(b, c))
  {
    var b := Builtin(raw, sequence);
    BuiltinSurvives(raw, sequence, candidates);
    assert Protected(b) && b.source == RuntimePrompt;
    var s := Survivors(candidates);
    SurvivorsDistinct(candidates);
    var j := LongestFittingPrefix(p, candidates);
    AllocateIs(p, s);
    AllocateAccounts(p, s);
    KeptSorted(s);
    hide *;
    var a := Allocate(p, s).value;
    FirstRuntime(a.kept, a.chosen[..j], b, Placed(DEFAULT_ORDER));
    forall c ensures Rival(candidates, b, c) <==> c in a.kept && c.source == RuntimePrompt && c != b {
      RivalIff(p, candidates, b, c);
    }
  }

  /** A pinned tool output of higher priority that claims the runtime source. */
  function Impostor(text: string): Candidate {
    Candidate("note", RuntimePrompt, NamedLayer("L4"), NamedKind("observation"), 1001, ToolOutput, 0, 0, text,
              "protected", true, false, None, false)
  }

  lemma ImpostorWins(raw: string, sequence: int, text: string)
    requires text != raw
    ensures var b, c := Builtin(raw, sequence), Impostor(text);
            && Distinct(multiset([b, c])) && OnlySystem(b, [b, c]) && Rival([b, c], b, c)
            && !Placed(DEFAULT_ORDER)(b, c)
  {
    var b, c := Builtin(raw, sequence), Impostor(text);
    assert b.id != c.id && !SameClass(b, c);
    var k, l := StableKey(b, DEFAULT_ORDER), StableKey(c, DEFAULT_ORDER);
    assert k[0] == l[0] && k[1..] != [] && l[1..] != [] && k[1..][0] == -1000 && l[1..][0] == -1001;
    assert !LexLess(k[1..], l[1..]);
  }

  /** An input for which the runtime section is somebody else's, under any budget that holds
      it, and a budget that does. */
  lemma RuntimeSectionCanBeTaken(raw: string, sequence: int, text: string) returns (p: Policy)
    requires text != raw
    ensures var candidates := [Builtin(raw, sequence), Impostor(text)];
            && Distinct(multiset(candidates)) && OnlySystem(Builtin(raw, sequence), candidates)
            && PolicyOk(p) && Assemble(p, candidates).Fits?
            && forall q: Policy :: Assemble(q, candidates).Fits? ==>
                 && Assemble(q, candidates).value.sections != []
                 && Assemble(q, candidates).value.sections[0] != Section(RuntimeProtocol, ["runtime-prompt"], raw)
  {
    var b, c := Builtin(raw, sequence), Impostor(text);
    var candidates := [b, c];
    ImpostorWins(raw, sequence, text);
    p := AmplePolicy(candidates);
    assert b.id == "runtime-prompt";
    hide *;
    forall q: Policy | Assemble(q, candidates).Fits?
      ensures Assemble(q, candidates).value.sections != []
      ensures Assemble(q, candidates).value.sections[0] != Section(RuntimeProtocol, ["runtime-prompt"], raw)
    {
      RuntimeSectionIsBuiltin(q, raw, sequence, candidates);
    }
  }

  /** Some budget is large enough for any candidates. */
  lemma AmplePolicy(candidates: seq<Candidate>) returns (p: Policy)
    requires Distinct(multiset(candidates))
    ensures PolicyOk(p) && Assemble(p, candidates).Fits?
  {
    var kept := KeptFirst(Survivors(candidates));
    TokensNat(kept);
    hide Assemble, Survivors, KeptFirst, Tokens, Prompt, Distinct, TokenCount;
    var room := Tokens(kept) + TokenCount(Prompt(kept, DEFAULT_ORDER));
    p := Policy(room + 1, 0, 1, map[], DEFAULT_ORDER);
    assert Available(p) == room + 1;
    FailsIffProtectedTooBig(p, candidates);
  }

  lemma KeptSorted(cs: seq<Candidate>)
    requires Distinct(multiset(cs))
    ensures Sorted(KeptFirst(cs), Placed(DEFAULT_ORDER)) && Separates(multiset(KeptFirst(cs)), Placed(DEFAULT_ORDER))
  {
    var f := Filter(cs, Protected);
    FilterMembers(cs, Protected);
    assert forall c :: multiset(f)[c] <= multiset(cs)[c];
    DistinctPart(multiset(f), multiset(cs));
    PlacedOrders(multiset(f), DEFAULT_ORDER);
    SortSorted(f, Placed(DEFAULT_ORDER));
  }
}
