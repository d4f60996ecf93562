// Orders and sorts shared by the other modules: the lexicographic order in which the
// repository compares its key tuples, and the stable sort it applies to them.

module Ordering {

  /** Lexicographic order on integer sequences: how key tuples and strings compare. */
  predicate LexLess(a: seq<int>, b: seq<int>) {
    if b == [] then false
    else if a == [] then true
    else a[0] < b[0] || (a[0] == b[0] && LexLess(a[1..], b[1..]))
  }

  lemma LexHead(k: seq<int>, l: seq<int>)
    requires k != [] && l != []
    ensures LexLess(k, l) <==> k[0] < l[0] || (k[0] == l[0] && LexLess(k[1..], l[1..]))
  {
  }

  function Codes(s: string): (r: seq<int>)
    ensures |r| == |s|
    ensures forall i :: 0 <= i < |s| ==> r[i] == s[i] as int
  {
    seq(|s|, i requires 0 <= i < |s| => s[i] as int)
  }

  lemma CodesInjective(a: string, b: string)
    requires Codes(a) == Codes(b)
    ensures a == b
  {
    assert |a| == |b|;
    forall i | 0 <= i < |a| ensures a[i] == b[i] {
      assert Codes(a)[i] == Codes(b)[i];
    }
  }

  lemma {:induction false} LexTrichotomy(a: seq<int>, b: seq<int>)
    ensures !(LexLess(a, b) && LexLess(b, a))
    ensures a != b ==> LexLess(a, b) || LexLess(b, a)
    ensures !LexLess(a, a)
  {
    if a != [] {
      LexTrichotomy(a[1..], if b == [] then [] else b[1..]);
      if b != [] && a[0] == b[0] && a[1..] == b[1..] {
        assert a == [a[0]] + a[1..] == [b[0]] + b[1..] == b;
      }
    }
  }

  lemma {:induction false} LexTransitive(a: seq<int>, b: seq<int>, c: seq<int>)
    requires LexLess(a, b) && LexLess(b, c)
    ensures LexLess(a, c)
  {
    if a != [] && a[0] == b[0] && b[0] == c[0] {
      LexTransitive(a[1..], b[1..], c[1..]);
    }
  }

  /** Strings, compared character by character. */
  predicate Before(a: string, b: string) {
    LexLess(Codes(a), Codes(b))
  }

  /** The position at which two sequences first differ decides, and a proper prefix comes first. */
  ghost predicate FirstDiffers(a: seq<int>, b: seq<int>, k: nat) {
    && k <= |a| && k < |b| && a[..k] == b[..k]
    && (k == |a| || a[k] < b[k])
  }

  lemma {:induction false} LexLessIff(a: seq<int>, b: seq<int>)
    ensures LexLess(a, b) <==> exists k: nat :: FirstDiffers(a, b, k)
  {
    if a != [] && b != [] && a[0] == b[0] {
      LexLessIff(a[1..], b[1..]);
      if k: nat :| FirstDiffers(a[1..], b[1..], k) {
        assert a[..k + 1] == [a[0]] + a[1..][..k] && b[..k + 1] == [b[0]] + b[1..][..k];
        assert FirstDiffers(a, b, k + 1);
      }
      if k: nat :| FirstDiffers(a, b, k) {
        assert k > 0 && a[..k][1..] == a[1..][..k - 1] && b[..k][1..] == b[1..][..k - 1];
        assert FirstDiffers(a[1..], b[1..], k - 1);
      }
    } else {
      forall k: nat | FirstDiffers(a, b, k) ensures k == 0 { HeadsAgree(a, b, k); }
      assert LexLess(a, b) ==> FirstDiffers(a, b, 0);
    }
  }

  lemma HeadsAgree(a: seq<int>, b: seq<int>, k: nat)
    requires FirstDiffers(a, b, k)
    ensures k > 0 ==> a != [] && b != [] && a[0] == b[0]
  {
    if k > 0 { assert a[..k][0] == b[..k][0]; }
  }

  lemma BeforeTotal(a: string, b: string)
    ensures a != b ==> Before(a, b) || Before(b, a)
    ensures !(Before(a, b) && Before(b, a))
  {
    LexTrichotomy(Codes(a), Codes(b));
    if a != b && Codes(a) == Codes(b) {
      CodesInjective(a, b);
    }
  }

  ghost predicate Transitive<T(!new)>(less: (T, T) -> bool) {
    forall a, b, c :: less(a, b) && less(b, c) ==> less(a, c)
  }

  ghost predicate Asymmetric<T(!new)>(less: (T, T) -> bool) {
    forall a, b :: less(a, b) ==> !less(b, a)
  }

  /** Distinct elements of xs are ordered one way or the other. */
  ghost predicate Separates<T>(xs: multiset<T>, less: (T, T) -> bool) {
    forall a, b :: a in xs && b in xs && a != b ==> less(a, b) || less(b, a)
  }

  ghost predicate StrictOrder<T(!new)>(less: (T, T) -> bool) {
    Transitive(less) && Asymmetric(less)
  }

  /** No later element belongs before an earlier one. */
  ghost predicate Sorted<T>(xs: seq<T>, less: (T, T) -> bool) {
    forall i, j :: 0 <= i < j < |xs| ==> !less(xs[j], xs[i])
  }

  function Insert<T>(x: T, xs: seq<T>, less: (T, T) -> bool): (r: seq<T>)
    ensures multiset(r) == multiset{x} + multiset(xs)
    ensures |r| == |xs| + 1
  {
    if xs == [] || !less(xs[0], x) then [x] + xs
    else
      assert xs == [xs[0]] + xs[1..];
      [xs[0]] + Insert(x, xs[1..], less)
  }

  /** A stable sort: elements that the order does not separate keep their positions. */
  function Sort<T>(xs: seq<T>, less: (T, T) -> bool): (r: seq<T>)
    ensures multiset(r) == multiset(xs)
    ensures |r| == |xs|
  {
    if xs == [] then []
    else
      assert xs == [xs[0]] + xs[1..];
      Insert(xs[0], Sort(xs[1..], less), less)
  }

  /** Something that does not come after the head of a sorted sequence comes after nothing in it. */
  lemma NotAfterHead<T(!new)>(x: T, xs: seq<T>, less: (T, T) -> bool, k: nat)
    requires Transitive(less) && Sorted(xs, less) && Separates(multiset(xs), less)
    requires k < |xs| && !less(xs[0], x)
    ensures !less(xs[k], x)
  {
    assert xs[k] in multiset(xs) && xs[0] in multiset(xs);
  }

  lemma ConsSorted<T>(x: T, xs: seq<T>, less: (T, T) -> bool)
    requires Sorted(xs, less)
    requires forall y :: y in multiset(xs) ==> !less(y, x)
    ensures Sorted([x] + xs, less)
  {
    var r := [x] + xs;
    forall i, j | 0 <= i < j < |r| ensures !less(r[j], r[i]) {
      assert r[j] == xs[j - 1] && xs[j - 1] in multiset(xs);
      if i > 0 { assert r[i] == xs[i - 1]; }
    }
  }

  lemma PushSorted<T>(xs: seq<T>, x: T, less: (T, T) -> bool)
    requires Sorted(xs, less)
    requires forall y :: y in xs ==> !less(x, y)
    ensures Sorted(xs + [x], less)
  {
    var r := xs + [x];
    forall i, j | 0 <= i < j < |r| ensures !less(r[j], r[i]) {
      if j == |xs| { assert r[i] in xs; }
    }
  }

  lemma {:induction false} InsertSorted<T(!new)>(x: T, xs: seq<T>, less: (T, T) -> bool)
    requires StrictOrder(less) && Sorted(xs, less) && Separates(multiset(xs), less)
    ensures Sorted(Insert(x, xs, less), less)
  {
    if xs == [] || !less(xs[0], x) {
      forall y | y in multiset(xs) ensures !less(y, x) {
        var k :| 0 <= k < |xs| && xs[k] == y;
        NotAfterHead(x, xs, less, k);
      }
      ConsSorted(x, xs, less);
    } else {
      assert xs == [xs[0]] + xs[1..];
      InsertSorted(x, xs[1..], less);
      forall y | y in multiset(Insert(x, xs[1..], less)) ensures !less(y, xs[0]) {
        if y != x {
          var k :| 0 <= k < |xs[1..]| && xs[1..][k] == y;
          assert xs[k + 1] == y;
        }
      }
      ConsSorted(xs[0], Insert(x, xs[1..], less), less);
    }
  }

  lemma {:induction false} SortSorted<T(!new)>(xs: seq<T>, less: (T, T) -> bool)
    requires StrictOrder(less) && Separates(multiset(xs), less)
    ensures Sorted(Sort(xs, less), less)
  {
    if xs != [] {
      assert xs == [xs[0]] + xs[1..];
      SortSorted(xs[1..], less);
      InsertSorted(xs[0], Sort(xs[1..], less), less);
    }
  }

  lemma SameFirst<T(!new)>(xs: seq<T>, ys: seq<T>, less: (T, T) -> bool)
    requires Separates(multiset(xs), less) && Sorted(xs, less) && Sorted(ys, less)
    requires multiset(xs) == multiset(ys) && xs != [] && ys != []
    ensures xs[0] == ys[0]
  {
    assert xs[0] in multiset(ys) && ys[0] in multiset(xs);
    var i :| 0 <= i < |ys| && ys[i] == xs[0];
    var j :| 0 <= j < |xs| && xs[j] == ys[0];
  }

  lemma DropFirst<T>(xs: seq<T>)
    requires xs != []
    ensures multiset(xs[1..]) == multiset(xs) - multiset{xs[0]}
  {
    assert xs == [xs[0]] + xs[1..];
  }

  lemma TailSorted<T(!new)>(xs: seq<T>, less: (T, T) -> bool)
    requires xs != [] && Separates(multiset(xs), less) && Sorted(xs, less)
    ensures Separates(multiset(xs[1..]), less) && Sorted(xs[1..], less)
  {
    assert forall a :: a in multiset(xs[1..]) ==> a in multiset(xs);
  }

  lemma SameParts<T>(xs: seq<T>, ys: seq<T>)
    requires xs != [] && ys != [] && xs[0] == ys[0] && xs[1..] == ys[1..]
    ensures xs == ys
  {
    assert xs == [xs[0]] + xs[1..] && ys == [ys[0]] + ys[1..];
  }

  lemma {:induction false} SortedUnique<T(!new)>(xs: seq<T>, ys: seq<T>, less: (T, T) -> bool)
    requires Separates(multiset(xs), less)
    requires Sorted(xs, less) && Sorted(ys, less) && multiset(xs) == multiset(ys)
    ensures xs == ys
  {
    assert |multiset(xs)| == |xs| && |multiset(ys)| == |ys|;
    if xs != [] {
      SameFirst(xs, ys, less);
      DropFirst(xs);
      DropFirst(ys);
      TailSorted(xs, less);
      TailSorted(ys, less);
      hide Separates, Sorted;
      SortedUnique(xs[1..], ys[1..], less);
      SameParts(xs, ys);
    }
  }

  /** Sorting forgets the order of its input whenever the order separates the elements. */
  lemma SortCanonical<T(!new)>(xs: seq<T>, ys: seq<T>, less: (T, T) -> bool)
    requires StrictOrder(less) && Separates(multiset(xs), less)
    requires multiset(xs) == multiset(ys)
    ensures Sort(xs, less) == Sort(ys, less)
  {
    SortSorted(xs, less);
    SortSorted(ys, less);
    SortedUnique(Sort(xs, less), Sort(ys, less), less);
  }

  lemma SortFixed<T(!new)>(xs: seq<T>, less: (T, T) -> bool)
    requires StrictOrder(less) && Separates(multiset(xs), less) && Sorted(xs, less)
    ensures Sort(xs, less) == xs
  {
    SortSorted(xs, less);
    SortedUnique(Sort(xs, less), xs, less);
  }

  /** The least element; the first one among those the order does not separate. */
  function First<T>(xs: seq<T>, less: (T, T) -> bool): (m: T)
    requires xs != []
    ensures m in xs
  {
    var n := |xs| - 1;
    if n == 0 then xs[0]
    else
      var m := First(xs[..n], less);
      if less(xs[n], m) then xs[n] else m
  }

  lemma {:induction false} FirstIsLeast<T(!new)>(xs: seq<T>, less: (T, T) -> bool, x: T)
    requires StrictOrder(less) && Separates(multiset(xs), less) && x in xs
    ensures First(xs, less) == x || less(First(xs, less), x)
  {
    var n := |xs| - 1;
    assert xs == xs[..n] + [xs[n]];
    if n > 0 {
      var m := First(xs[..n], less);
      assert m in multiset(xs) && x in multiset(xs) && xs[n] in multiset(xs);
      if x in xs[..n] { FirstIsLeast(xs[..n], less, x); }
    }
  }

  /** The reverse order. */
  function Reverse<T>(less: (T, T) -> bool): (T, T) -> bool {
    (a: T, b: T) => less(b, a)
  }

  lemma ReverseStrict<T(!new)>(xs: multiset<T>, less: (T, T) -> bool)
    requires StrictOrder(less) && Separates(xs, less)
    ensures StrictOrder(Reverse(less)) && Separates(xs, Reverse(less))
  {
  }

  /** The order of text is strict and separates all texts. */
  lemma BeforeOrders(ids: seq<string>)
    ensures StrictOrder(Before) && Separates(multiset(ids), Before)
  {
    forall a, b, c | Before(a, b) && Before(b, c) ensures Before(a, c) {
      LexTransitive(Codes(a), Codes(b), Codes(c));
    }
    forall a, b ensures a != b ==> Before(a, b) || Before(b, a)
                ensures !(Before(a, b) && Before(b, a)) { BeforeTotal(a, b); }
    hide LexLess, Before;
  }
}
