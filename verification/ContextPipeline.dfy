// The whole context assembly: thin out, allocate, then render and drop until the prompt fits.
// Its promises are proved end to end: input order does not matter, every candidate is
// accounted for once, the longest fitting selection is kept, and trust stays separated.

module ContextPipeline {
  import opened Lists
  import opened Ordering
  import opened Candidates
  import opened ContextStages
  import opened ContextBudget
  import opened PromptRender

  // ---- render and drop ----

  function RecordOf(c: Candidate): Selection {
    Selection(c.id, true, if Protected(c) then ProtectedContent else SelectedFrom(c.bucket), c.tokens)
  }

  function Records(cs: seq<Candidate>): seq<Selection> {
    Map(cs, RecordOf)
  }

  function NotFor(id: string): Selection -> bool {
    (s: Selection) => s.id != id
  }

  datatype Fitted = Fitted(selected: seq<Candidate>, records: seq<Selection>, dropped: seq<Selection>)

  predicate PromptFits(p: Policy, selected: seq<Candidate>) {
    TokenCount(Prompt(selected, p.order)) <= Available(p)
  }

  lemma {:induction false} FilterShorter(cs: seq<Candidate>, c: Candidate)
    requires c in cs
    ensures |Filter(cs, NotNamed(c.id))| < |cs|
  {
    var n := |cs| - 1;
    FilterNoLonger(cs[..n], NotNamed(c.id));
    if cs[n].id != c.id { FilterShorter(cs[..n], c); }
  }

  lemma {:induction false} FilterNoLonger<T>(xs: seq<T>, keep: T -> bool)
    ensures |Filter(xs, keep)| <= |xs|
  {
    if xs != [] { FilterNoLonger(xs[..|xs| - 1], keep); }
  }

  /** As long as the prompt is too long, the evictable candidate that loses to all others goes. */
  function FitAll(p: Policy, current: seq<Candidate>, records: seq<Selection>, dropped: seq<Selection>): Outcome<Fitted>
    decreases |current|
  {
    var droppable := Filter(current, Evictable);
    if PromptFits(p, current) then Fits(Fitted(current, records, dropped))
    else if droppable == [] then Exhausted(TokenCount(Prompt(current, p.order)), Available(p))
    else
      var loser := Worst(droppable);
      FilterMembers(current, Evictable);
      FilterShorter(current, loser);
      FitAll(p, Filter(current, NotNamed(loser.id)), Filter(records, NotFor(loser.id)),
             dropped + [Dropped(loser, RenderedPromptBudget)])
  }

  /** What the allocation hands over: protected candidates, then evictable ones in winner order. */
  ghost predicate Ready(kept: seq<Candidate>, chosen: seq<Candidate>) {
    && (forall c :: c in kept ==> Protected(c)) && (forall c :: c in chosen ==> !Protected(c))
    && Sorted(chosen, Wins) && Distinct(multiset(kept + chosen))
  }

  lemma {:induction false} LastIsWorst(chosen: seq<Candidate>)
    requires chosen != [] && Sorted(chosen, Wins) && Distinct(multiset(chosen))
    ensures Worst(chosen) == chosen[|chosen| - 1]
  {
    var last := chosen[|chosen| - 1];
    WorstLoses(chosen, last);
    hide Wins, Worst;
    var k :| 0 <= k < |chosen| && chosen[k] == Worst(chosen);
    assert !Wins(last, chosen[k]) || k == |chosen| - 1;
  }

  lemma ReadyPrefix(kept: seq<Candidate>, chosen: seq<Candidate>, k: nat)
    requires Ready(kept, chosen) && k <= |chosen|
    ensures Ready(kept, chosen[..k])
  {
    hide Wins, Protected;
    assert kept + chosen == (kept + chosen[..k]) + chosen[k..];
    DistinctPart(multiset(kept + chosen[..k]), multiset(kept + chosen));
  }

  /** Dropping by id removes the last chosen candidate and its record. */
  lemma DropLast(kept: seq<Candidate>, chosen: seq<Candidate>)
    requires Ready(kept, chosen) && chosen != []
    ensures var front, last := chosen[..|chosen| - 1], chosen[|chosen| - 1];
            && Filter(kept + chosen, Evictable) == chosen
            && Worst(chosen) == last
            && Filter(kept + chosen, NotNamed(last.id)) == kept + front
            && Filter(Records(kept + chosen), NotFor(last.id)) == Records(kept + front)
  {
    var front, last := chosen[..|chosen| - 1], chosen[|chosen| - 1];
    var all, rest := kept + chosen, kept + front;
    assert all == rest + [last];
    SplitSelected(kept, chosen);
    assert all == kept + chosen;
    DistinctPart(multiset(chosen), multiset(all));
    LastIsWorst(chosen);
    hide Wins, Worst, Protected;
    forall i | 0 <= i < |rest| ensures rest[i].id != last.id {
      assert rest[i] in multiset(all) && last in multiset(all) && rest[i] in rest;
    }
    DropById(rest, last);
  }

  lemma {:induction false} DropById(rest: seq<Candidate>, last: Candidate)
    requires forall i :: 0 <= i < |rest| ==> rest[i].id != last.id
    ensures Filter(rest + [last], NotNamed(last.id)) == rest
    ensures Filter(Records(rest + [last]), NotFor(last.id)) == Records(rest)
  {
    FilterAll(rest, NotNamed(last.id));
    FilterAll(Records(rest), NotFor(last.id));
    assert (rest + [last])[..|rest|] == rest;
    assert Records(rest + [last]) == Records(rest) + [RecordOf(last)];
    assert Records(rest + [last])[..|rest|] == Records(rest);
  }

  function DroppedRecord(c: Candidate): Selection {
    Dropped(c, RenderedPromptBudget)
  }

  function Backwards(cs: seq<Candidate>): (r: seq<Candidate>)
    ensures |r| == |cs| && forall i :: 0 <= i < |cs| ==> r[i] == cs[|cs| - 1 - i]
  {
    seq(|cs|, i requires 0 <= i < |cs| => cs[|cs| - 1 - i])
  }

  /** Longer selections of the same list have longer prompts. */
  lemma {:induction false} FitsDownward(p: Policy, kept: seq<Candidate>, chosen: seq<Candidate>, j: nat, k: nat)
    requires j <= k <= |chosen| && PromptFits(p, kept + chosen[..k])
    ensures PromptFits(p, kept + chosen[..j])
    decreases k - j
  {
    hide Prompt;
    if j < k {
      PromptPush(kept + chosen[..k - 1], chosen[k - 1], p.order);
      assert kept + chosen[..k] == kept + chosen[..k - 1] + [chosen[k - 1]];
      FitsDownward(p, kept, chosen, j, k - 1);
    }
  }

  /** The answer of the loop: the first j chosen candidates stay, and no more would fit; or
      not even the protected candidates fit. */
  ghost predicate Answers(p: Policy, kept: seq<Candidate>, chosen: seq<Candidate>, dropped: seq<Selection>, j: nat,
                          r: Outcome<Fitted>)
  {
    && j <= |chosen|
    && (if PromptFits(p, kept + chosen[..j]) then
          r == Fits(Fitted(kept + chosen[..j], Records(kept + chosen[..j]),
                           dropped + Map(Backwards(chosen[j..]), DroppedRecord)))
        else j == 0 && r == Exhausted(TokenCount(Prompt(kept, p.order)), Available(p)))
    && forall k :: j < k <= |chosen| ==> !PromptFits(p, kept + chosen[..k])
  }

  lemma AnswersNow(p: Policy, kept: seq<Candidate>, chosen: seq<Candidate>, dropped: seq<Selection>)
    requires PromptFits(p, kept + chosen)
    ensures Answers(p, kept, chosen, dropped, |chosen|, FitAll(p, kept + chosen, Records(kept + chosen), dropped))
  {
    hide PromptFits, Records, Prompt;
    assert chosen[..|chosen|] == chosen && chosen[|chosen|..] == [];
    assert Map(Backwards(chosen[|chosen|..]), DroppedRecord) == [];
    assert dropped + [] == dropped;
  }

  lemma AnswersNever(p: Policy, kept: seq<Candidate>, dropped: seq<Selection>)
    requires Ready(kept, []) && !PromptFits(p, kept)
    ensures Answers(p, kept, [], dropped, 0, FitAll(p, kept, Records(kept), dropped))
  {
    hide PromptFits, Records, Prompt;
    var none: seq<Candidate> := [];
    assert kept + none[..0] == kept && kept + none == kept;
    SplitSelected(kept, none);
  }

  lemma AnswersLater(p: Policy, kept: seq<Candidate>, chosen: seq<Candidate>, dropped: seq<Selection>, j: nat,
                     r: Outcome<Fitted>)
    requires chosen != [] && !PromptFits(p, kept + chosen)
    requires var n := |chosen| - 1; Answers(p, kept, chosen[..n], dropped + [DroppedRecord(chosen[n])], j, r)
    ensures Answers(p, kept, chosen, dropped, j, r)
  {
    hide PromptFits, Records, Prompt;
    var n := |chosen| - 1;
    FitRest(kept, chosen, j, dropped);
    hide Backwards;
    assert chosen[..n][..j] == chosen[..j];
    forall k | j < k <= |chosen| ensures !PromptFits(p, kept + chosen[..k]) {
      if k <= n { assert chosen[..n][..k] == chosen[..k]; } else { assert chosen[..k] == chosen; }
    }
  }

  lemma FitUnfold(p: Policy, kept: seq<Candidate>, chosen: seq<Candidate>, dropped: seq<Selection>)
    requires Ready(kept, chosen) && chosen != [] && !PromptFits(p, kept + chosen)
    ensures var n := |chosen| - 1;
            FitAll(p, kept + chosen, Records(kept + chosen), dropped)
            == FitAll(p, kept + chosen[..n], Records(kept + chosen[..n]), dropped + [DroppedRecord(chosen[n])])
  {
    DropLast(kept, chosen);
    hide Ready, PromptFits, Worst, Records, Prompt, Filter;
  }

  lemma {:induction false} FitFrom(p: Policy, kept: seq<Candidate>, chosen: seq<Candidate>, dropped: seq<Selection>)
    returns (j: nat)
    requires Ready(kept, chosen)
    ensures Answers(p, kept, chosen, dropped, j, FitAll(p, kept + chosen, Records(kept + chosen), dropped))
    decreases |chosen|
  {
    hide *;
    j := |chosen|;
    if PromptFits(p, kept + chosen) {
      AnswersNow(p, kept, chosen, dropped);
    } else if chosen == [] {
      assert kept + chosen == kept;
      AnswersNever(p, kept, dropped);
    } else {
      var n := |chosen| - 1;
      FitUnfold(p, kept, chosen, dropped);
      ReadyPrefix(kept, chosen, n);
      j := FitFrom(p, kept, chosen[..n], dropped + [DroppedRecord(chosen[n])]);
      AnswersLater(p, kept, chosen, dropped, j, FitAll(p, kept + chosen, Records(kept + chosen), dropped));
    }
  }

  lemma FitRest(kept: seq<Candidate>, chosen: seq<Candidate>, j: nat, dropped: seq<Selection>)
    requires chosen != [] && j < |chosen|
    ensures var n := |chosen| - 1;
            dropped + [DroppedRecord(chosen[n])] + Map(Backwards(chosen[..n][j..]), DroppedRecord)
            == dropped + Map(Backwards(chosen[j..]), DroppedRecord)
  {
    var n := |chosen| - 1;
    assert Map(Backwards(chosen[j..]), DroppedRecord)
           == [DroppedRecord(chosen[n])] + Map(Backwards(chosen[..n][j..]), DroppedRecord);
  }
}
