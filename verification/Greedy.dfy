// Greedy selection: elements are visited in order and kept when they fit after what was kept
// before them. Both context selectors are instances of it.

module Greedy {
  import opened Lists
  import opened Ordering

  function Greedy<T>(xs: seq<T>, fits: (seq<T>, T) -> bool): (r: seq<T>) {
    if xs == [] then []
    else Visit(Greedy(xs[..|xs| - 1], fits), xs[|xs| - 1], fits)
  }

  function Visit<T>(kept: seq<T>, x: T, fits: (seq<T>, T) -> bool): seq<T> {
    if fits(kept, x) then kept + [x] else kept
  }

  function Before<T>(x: T, less: (T, T) -> bool): T -> bool {
    (y: T) => less(y, x)
  }

  /** The kept elements that come before x. */
  function Ahead<T>(kept: seq<T>, x: T, less: (T, T) -> bool): seq<T> {
    Filter(kept, Before(x, less))
  }

  ghost predicate Once<T>(xs: seq<T>) {
    forall i, j :: 0 <= i < j < |xs| ==> xs[i] != xs[j]
  }

  lemma {:induction false} GreedySorted<T(!new)>(xs: seq<T>, fits: (seq<T>, T) -> bool, less: (T, T) -> bool)
    requires Sorted(xs, less)
    ensures Sorted(Greedy(xs, fits), less) && forall x :: x in Greedy(xs, fits) ==> x in xs
  {
    if xs != [] {
      var n := |xs| - 1;
      GreedySorted(xs[..n], fits, less);
      forall y | y in Greedy(xs[..n], fits) ensures !less(xs[n], y) {
        var k :| 0 <= k < n && xs[k] == y;
      }
      PushSorted(Greedy(xs[..n], fits), xs[n], less);
    }
  }

  lemma AheadPush<T>(kept: seq<T>, last: T, x: T, less: (T, T) -> bool)
    requires !less(last, x)
    ensures Ahead(kept + [last], x, less) == Ahead(kept, x, less)
  {
    assert (kept + [last])[..|kept|] == kept;
  }

  /** Everything kept before the last element comes before it. */
  lemma AheadOfLast<T(!new)>(front: seq<T>, last: T, kept: seq<T>, less: (T, T) -> bool)
    requires Separates(multiset(front + [last]), less) && Sorted(front + [last], less) && last !in front
    requires forall y :: y in kept ==> y in front
    ensures Ahead(kept, last, less) == kept
  {
    var all := front + [last];
    forall i | 0 <= i < |kept| ensures less(kept[i], last) {
      assert kept[i] in front;
      var k :| 0 <= k < |front| && front[k] == kept[i];
      assert all[k] == kept[i] && all[|front|] == last;
      assert all[k] in multiset(all) && all[|front|] in multiset(all);
    }
    FilterAll(kept, Before(last, less));
  }

  lemma GreedyPush<T(!new)>(front: seq<T>, last: T, kept: seq<T>, x: T, fits: (seq<T>, T) -> bool, less: (T, T) -> bool)
    requires StrictOrder(less) && Separates(multiset(front + [last]), less) && Sorted(front + [last], less)
    requires last !in front && forall y :: y in kept ==> y in front
    requires x == last || (x in front && (x in kept <==> fits(Ahead(kept, x, less), x)))
    ensures var all := Visit(kept, last, fits); x in all <==> fits(Ahead(all, x, less), x)
  {
    var all := front + [last];
    assert !less(last, x) by {
      if x in front {
        var k :| 0 <= k < |front| && front[k] == x;
        assert all[k] == x && all[|front|] == last;
      }
    }
    AheadPush(kept, last, x, less);
    AheadOfLast(front, last, kept, less);
  }

  /** The greedy choice without the loop: an element is kept iff it fits after the kept
      elements that come before it. */
  lemma {:induction false} GreedyIff<T(!new)>(xs: seq<T>, x: T, fits: (seq<T>, T) -> bool, less: (T, T) -> bool)
    requires StrictOrder(less) && Separates(multiset(xs), less) && Sorted(xs, less) && Once(xs) && x in xs
    ensures var kept := Greedy(xs, fits); x in kept <==> fits(Ahead(kept, x, less), x)
  {
    var n := |xs| - 1;
    var front := xs[..n];
    FrontKeeps(xs, less);
    GreedySorted(front, fits, less);
    hide Separates, Sorted, Once, StrictOrder, Ahead;
    if x in front { GreedyIff(front, x, fits, less); }
    GreedyPush(front, xs[n], Greedy(front, fits), x, fits, less);
  }

  lemma GreedyUnfold<T>(front: seq<T>, last: T, fits: (seq<T>, T) -> bool)
    ensures Greedy(front + [last], fits) == Visit(Greedy(front, fits), last, fits)
  {
    assert (front + [last])[..|front|] == front;
  }

  lemma VisitedAhead<T>(kept: seq<T>, last: T, x: T, fits: (seq<T>, T) -> bool, less: (T, T) -> bool)
    requires !less(last, x)
    ensures Ahead(Visit(kept, last, fits), x, less) == Ahead(kept, x, less)
  {
    AheadPush(kept, last, x, less);
  }

  lemma LastNotBefore<T(!new)>(xs: seq<T>, k: nat, less: (T, T) -> bool)
    requires Asymmetric(less) && Sorted(xs, less) && k < |xs|
    ensures !less(xs[|xs| - 1], xs[k])
  {
  }

  /** What is kept ahead of an element is what was kept when it was visited. */
  lemma {:induction false} AheadIsVisited<T(!new)>(xs: seq<T>, k: nat, fits: (seq<T>, T) -> bool, less: (T, T) -> bool)
    requires StrictOrder(less) && Separates(multiset(xs), less) && Sorted(xs, less) && Once(xs) && k < |xs|
    ensures Ahead(Greedy(xs, fits), xs[k], less) == Greedy(xs[..k], fits)
  {
    var n := |xs| - 1;
    var front, last := xs[..n], xs[n];
    LastNotBefore(xs, k, less);
    hide *;
    FrontKeeps(xs, less);
    GreedySorted(front, fits, less);
    GreedyUnfold(front, last, fits);
    VisitedAhead(Greedy(front, fits), last, xs[k], fits, less);
    if k == n {
      AheadOfLast(front, last, Greedy(front, fits), less);
    } else {
      AheadIsVisited(front, k, fits, less);
      assert front[k] == xs[k] && front[..k] == xs[..k];
    }
  }

  lemma FrontKeeps<T(!new)>(xs: seq<T>, less: (T, T) -> bool)
    requires xs != [] && Separates(multiset(xs), less) && Sorted(xs, less) && Once(xs)
    ensures var front := xs[..|xs| - 1];
            && xs == front + [xs[|xs| - 1]] && xs[|xs| - 1] !in front
            && Separates(multiset(front), less) && Sorted(front, less) && Once(front)
  {
    var front := xs[..|xs| - 1];
    assert xs == front + [xs[|xs| - 1]];
    assert forall y :: y in multiset(front) ==> y in multiset(xs);
  }
}
