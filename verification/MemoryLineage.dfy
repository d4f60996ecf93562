// Memory lineage: the worklist that collects one item's replacement history, and when every
// member of a history yields the same one.

module MemoryLineage {
  import opened Common
  import opened Lists
  import opened Ordering

  datatype Memory = Memory(id: string, scope: (string, string), created: string, supersedes: Option<string>)

  type Table = map<string, Memory>

  /** Rows are stored under their own, non-empty id. */
  predicate TableOk(t: Table) {
    forall id :: id in t ==> t[id].id == id && id != ""
  }

  /** The stored item that x replaces. */
  function Parent(t: Table, x: string): Option<string>
    requires x in t
  {
    var p := t[x].supersedes;
    if p.Some? && p.value != "" && p.value in t then p else None
  }

  predicate Child(t: Table, scope: (string, string), x: string, c: string) {
    c in t && t[c].supersedes == Some(x) && t[c].scope == scope
  }

  /** One step of a lineage: to a replacement in the given scope, or to what was replaced. */
  predicate Edge(t: Table, scope: (string, string), x: string, y: string) {
    x in t && y in t && (Child(t, scope, x, y) || Parent(t, x) == Some(y))
  }

  ghost predicate Path(t: Table, scope: (string, string), p: seq<string>) {
    p != [] && p[0] in t && forall i :: 0 <= i < |p| - 1 ==> Edge(t, scope, p[i], p[i + 1])
  }

  /** y belongs to the lineage of x: it is reached in steps in the scope of x. */
  ghost predicate InLineage(t: Table, x: string, y: string) {
    x in t && exists p :: Path(t, t[x].scope, p) && p[0] == x && p[|p| - 1] == y
  }

  predicate Older(a: Memory, b: Memory) {
    Before(a.created, b.created) || (a.created == b.created && Before(a.id, b.id))
  }

  ghost predicate Has(items: seq<Memory>, id: string) {
    exists i :: 0 <= i < |items| && items[i].id == id
  }

  /** A set of items, each once, oldest first. */
  ghost predicate IsHistory(t: Table, ids: set<string>, h: seq<Memory>) {
    && (forall i :: 0 <= i < |h| ==> h[i].id in ids && h[i].id in t && h[i] == t[h[i].id])
    && (forall id :: id in ids ==> Has(h, id))
    && (forall i, j :: 0 <= i < j < |h| ==> Older(h[i], h[j]))
  }

  lemma Extend(t: Table, x: string, y: string, z: string)
    requires InLineage(t, x, y) && Edge(t, t[x].scope, y, z)
    ensures InLineage(t, x, z)
  {
    var s := t[x].scope;
    var p :| Path(t, s, p) && p[0] == x && p[|p| - 1] == y;
    var q := p + [z];
    forall i | 0 <= i < |q| - 1 ensures Edge(t, s, q[i], q[i + 1]) {
      if i < |p| - 1 { assert Edge(t, s, p[i], p[i + 1]); }
    }
    assert Path(t, s, q);
  }

  lemma Self(t: Table, x: string)
    requires x in t
    ensures InLineage(t, x, x)
  {
    assert Path(t, t[x].scope, [x]);
  }

  /** A set that contains x and follows every step from its members contains the lineage. */
  lemma {:induction false} ClosedContains(t: Table, x: string, rows: set<string>, p: seq<string>)
    requires x in t && x in rows && Path(t, t[x].scope, p) && p[0] == x
    requires forall y, z :: y in rows && Edge(t, t[x].scope, y, z) ==> z in rows
    ensures p[|p| - 1] in rows
  {
    if |p| > 1 {
      var q := p[..|p| - 1];
      assert Path(t, t[x].scope, q) by {
        forall i | 0 <= i < |q| - 1 ensures Edge(t, t[x].scope, q[i], q[i + 1]) {
          assert Edge(t, t[x].scope, p[i], p[i + 1]);
        }
      }
      ClosedContains(t, x, rows, q);
      assert Edge(t, t[x].scope, p[|p| - 2], p[|p| - 1]);
    }
  }

  ghost function Lineage(t: Table, x: string): set<string> {
    set y | y in t && InLineage(t, x, y)
  }

  /** A set of rows that leaves nothing of a lineage out: with a row it holds every replacement
      of that row in the scope of the start, and whatever row that row says it replaces. */
  ghost predicate Complete(t: Table, x: string, rows: set<string>)
    requires x in t
  {
    && (forall y, z :: y in rows && z in t && t[z].supersedes == Some(y) && t[z].scope == t[x].scope ==> z in rows)
    && (forall y, z :: y in rows && y in t && z in t && t[y].supersedes == Some(z) ==> z in rows)
  }

  /** A lineage is the least complete set of rows with its start in it. */
  lemma LineageIsLeast(t: Table, x: string, rows: set<string>)
    requires TableOk(t) && x in t
    ensures x in Lineage(t, x) && Lineage(t, x) <= t.Keys && Complete(t, x, Lineage(t, x))
    ensures x in rows && Complete(t, x, rows) ==> Lineage(t, x) <= rows
  {
    Self(t, x);
    forall y, z | y in Lineage(t, x) && z in t && t[z].supersedes == Some(y) && t[z].scope == t[x].scope
      ensures z in Lineage(t, x)
    {
      Extend(t, x, y, z);
    }
    forall y, z | y in Lineage(t, x) && y in t && z in t && t[y].supersedes == Some(z) ensures z in Lineage(t, x) {
      Extend(t, x, y, z);
    }
    if x in rows && Complete(t, x, rows) {
      forall y | y in Lineage(t, x) ensures y in rows {
        var p :| Path(t, t[x].scope, p) && p[0] == x && p[|p| - 1] == y;
        ClosedContains(t, x, rows, p);
      }
    }
  }

  /** A history is told from the earliest creation on; of one time, by id. */
  lemma ToldInTime(t: Table, ids: set<string>, h: seq<Memory>, i: nat, j: nat)
    requires IsHistory(t, ids, h) && i < j < |h|
    ensures h[i].created == h[j].created || LexLess(Codes(h[i].created), Codes(h[j].created))
    ensures h[i].created == h[j].created ==> LexLess(Codes(h[i].id), Codes(h[j].id))
  {
    assert Older(h[i], h[j]);
    LexTrichotomy(Codes(h[i].created), Codes(h[j].created));
    LexTrichotomy(Codes(h[i].id), Codes(h[j].id));
  }

  lemma OlderOrder()
    ensures StrictOrder(Older)
  {
    forall a, b, c | Older(a, b) && Older(b, c) ensures Older(a, c) {
      if Before(a.created, b.created) && Before(b.created, c.created) {
        LexTransitive(Codes(a.created), Codes(b.created), Codes(c.created));
      } else if a.created == b.created == c.created {
        LexTransitive(Codes(a.id), Codes(b.id), Codes(c.id));
      }
    }
    forall a, b | Older(a, b) ensures !Older(b, a) {
      BeforeTotal(a.created, b.created);
      BeforeTotal(a.id, b.id);
    }
  }

  lemma OlderSeparates(items: seq<Memory>)
    requires forall i, j :: 0 <= i < |items| && 0 <= j < |items| && items[i].id == items[j].id ==> items[i] == items[j]
    ensures Separates(multiset(items), Older)
  {
    forall a, b | a in multiset(items) && b in multiset(items) && a != b ensures Older(a, b) || Older(b, a) {
      var i :| 0 <= i < |items| && items[i] == a;
      var j :| 0 <= j < |items| && items[j] == b;
      BeforeTotal(a.created, b.created);
      BeforeTotal(a.id, b.id);
    }
  }

  /** There is only one history of a set of items. */
  lemma HistoryUnique(t: Table, ids: set<string>, g: seq<Memory>, h: seq<Memory>)
    requires IsHistory(t, ids, g) && IsHistory(t, ids, h)
    ensures g == h
  {
    OlderOrder();
    hide Older;
    HistoryCounts(t, ids, g);
    HistoryCounts(t, ids, h);
    assert multiset(g) == multiset(h) by {
      forall x ensures multiset(g)[x] == multiset(h)[x] {
        assert x in g <==> x in multiset(g);
        assert x in h <==> x in multiset(h);
      }
    }
    OlderSeparates(g);
    SortedUnique(g, h, Older);
  }

  lemma HistoryCounts(t: Table, ids: set<string>, h: seq<Memory>)
    requires IsHistory(t, ids, h) && Asymmetric(Older)
    ensures forall x :: multiset(h)[x] <= 1
  {
    hide Older;
    forall i, j | 0 <= i < j < |h| ensures h[i] != h[j] { assert Older(h[i], h[j]); }
    OnceCounts(h);
  }

  lemma {:induction false} OnceCounts<T>(xs: seq<T>)
    requires forall i, j :: 0 <= i < j < |xs| ==> xs[i] != xs[j]
    ensures forall x :: multiset(xs)[x] <= 1
  {
    if xs != [] {
      var n := |xs| - 1;
      assert xs == xs[..n] + [xs[n]];
      OnceCounts(xs[..n]);
      assert xs[n] !in xs[..n];
    }
  }

  // ---- the worklist ----

  /** What the worklist knows: it found only lineage, and everything next to a finished item. */
  ghost predicate Searching(t: Table, x: string, rows: set<string>, pending: seq<string>) {
    && x in rows && rows <= t.Keys
    && (forall y :: y in rows ==> InLineage(t, x, y))
    && (forall y :: y in pending ==> y in rows)
    && (forall y, z :: y in rows && y !in pending && Edge(t, t[x].scope, y, z) ==> z in rows)
  }

  lemma SearchDone(t: Table, x: string, rows: set<string>)
    requires x in t && Searching(t, x, rows, [])
    ensures rows == Lineage(t, x)
  {
    forall y | y in t && InLineage(t, x, y) ensures y in rows {
      var p :| Path(t, t[x].scope, p) && p[0] == x && p[|p| - 1] == y;
      ClosedContains(t, x, rows, p);
    }
  }

  /** Visiting an item: its replacements in scope and what it replaced join the rows. */
  lemma Visited(t: Table, x: string, rows: set<string>, pending: seq<string>, more: set<string>, added: seq<string>)
    requires x in t && pending != [] && Searching(t, x, rows, pending)
    requires var current := pending[|pending| - 1];
             && (forall y :: y in more <==> y !in rows && Edge(t, t[x].scope, current, y))
             && (forall y :: y in added <==> y in more)
    ensures Searching(t, x, rows + more, pending[..|pending| - 1] + added)
  {
    var current := pending[|pending| - 1];
    forall y | y in more ensures InLineage(t, x, y) { Extend(t, x, current, y); }
    hide InLineage;
    var rest := pending[..|pending| - 1] + added;
    forall y, z | y in rows + more && y !in rest && Edge(t, t[x].scope, y, z) ensures z in rows + more {
      if y != current {
        assert y in rows && y !in pending;
      }
    }
  }

  /** list_memory_history: a worklist over the rows found so far, then the rows by age. */
  method ListMemoryHistory(t: Table, id: string) returns (h: seq<Memory>)
    requires TableOk(t)
    ensures id !in t ==> h == []
    ensures id in t ==> IsHistory(t, Lineage(t, id), h)
  {
    if id !in t { return []; }
    var first := t[id];
    var rows: map<string, Memory>, pending := map[id := first], [id];
    Self(t, id);
    while pending != []
      invariant Searching(t, id, rows.Keys, pending) && Copied(t, rows)
      decreases |t.Keys - rows.Keys|, |pending|
    {
      hide Searching;
      rows, pending := Advance(t, id, rows, pending);
    }
    SearchDone(t, id, rows.Keys);
    h := ByAge(rows);
  }

  ghost predicate Copied(t: Table, rows: map<string, Memory>) {
    rows.Keys <= t.Keys && forall y :: y in rows ==> rows[y] == t[y]
  }

  /** One turn of the worklist: the item on top is visited. */
  method Advance(t: Table, id: string, rows: map<string, Memory>, pending: seq<string>)
    returns (more: map<string, Memory>, left: seq<string>)
    requires TableOk(t) && id in t && pending != [] && Searching(t, id, rows.Keys, pending) && Copied(t, rows)
    ensures Searching(t, id, more.Keys, left) && Copied(t, more)
    ensures |t.Keys - more.Keys| < |t.Keys - rows.Keys| || (more.Keys == rows.Keys && |left| < |pending|)
  {
    var current := pending[|pending| - 1];
    assert current in pending;
    var added: seq<string>;
    more, added := Visit(t, t[id].scope, rows, current);
    left := pending[..|pending| - 1] + added;
    Visited(t, id, rows.Keys, pending, more.Keys - rows.Keys, added);
    hide Searching, TableOk;
    assert rows.Keys + (more.Keys - rows.Keys) == more.Keys;
    if added != [] {
      Shrinks(t.Keys, rows.Keys, more.Keys, added[0]);
    } else {
      assert more.Keys == rows.Keys;
    }
  }

  lemma Shrinks(all: set<string>, was: set<string>, now: set<string>, x: string)
    requires was <= now <= all && x in now && x !in was
    ensures |all - now| < |all - was|
  {
    SmallerSet(all - now, all - was, x);
  }

  lemma SmallerSet(a: set<string>, b: set<string>, x: string)
    requires a <= b && x in b && x !in a
    ensures |a| < |b|
  {
    var rest := b - a;
    assert b == a + rest && a !! rest;
    assert x in rest;
  }

  /** The rows next to the current one that are not known yet. */
  method Visit(t: Table, scope: (string, string), rows: map<string, Memory>, current: string)
    returns (more: map<string, Memory>, added: seq<string>)
    requires TableOk(t) && current in rows && Copied(t, rows)
    ensures rows.Keys <= more.Keys && Copied(t, more)
    ensures forall y :: y in more.Keys - rows.Keys <==> y !in rows && Edge(t, scope, current, y)
    ensures forall y :: y in added <==> y in more.Keys - rows.Keys
  {
    more, added := rows, [];
    var children := set c | c in t && Child(t, scope, current, c);
    var left := children;
    while left != {}
      invariant left <= children && rows.Keys <= more.Keys <= t.Keys && forall y :: y in more ==> more[y] == t[y]
      invariant forall y :: y in more.Keys - rows.Keys <==> y !in rows && y in children - left
      invariant forall y :: y in added <==> y in more.Keys - rows.Keys
      decreases |left|
    {
      var c :| c in left;
      left := left - {c};
      if c !in more {
        more := more[c := t[c]];
        added := added + [c];
      }
    }
    var parent := t[current].supersedes;
    if parent.Some? && parent.value != "" && parent.value !in more {
      if parent.value in t {
        more := more[parent.value := t[parent.value]];
        added := added + [parent.value];
      }
    }
  }

  /** The rows of a dictionary, each once. */
  ghost predicate Values(rows: map<string, Memory>, ids: set<string>, items: seq<Memory>) {
    && ids <= rows.Keys
    && (forall i :: 0 <= i < |items| ==> items[i].id in ids && items[i] == rows[items[i].id])
    && (forall id :: id in ids ==> Has(items, id))
    && (forall i, j :: 0 <= i < j < |items| ==> items[i] != items[j])
  }

  lemma ValuesPush(rows: map<string, Memory>, ids: set<string>, items: seq<Memory>, id: string)
    requires Values(rows, ids, items) && id in rows && id !in ids && rows[id].id == id
    ensures Values(rows, ids + {id}, items + [rows[id]])
  {
    var all := items + [rows[id]];
    assert all[|items|].id == id;
    forall x | x in ids + {id} ensures Has(all, x) {
      if x in ids {
        assert Has(items, x);
        var i :| 0 <= i < |items| && items[i].id == x;
        assert all[i].id == x;
      }
    }
  }

  /** Sorted by creation time, then id. */
  method ByAge(rows: map<string, Memory>) returns (h: seq<Memory>)
    requires forall id :: id in rows ==> rows[id].id == id
    ensures IsHistory(rows, rows.Keys, h)
  {
    var left: set<string>, items: seq<Memory> := rows.Keys, [];
    while left != {}
      invariant left <= rows.Keys && Values(rows, rows.Keys - left, items)
      decreases |left|
    {
      var id :| id in left;
      ValuesPush(rows, rows.Keys - left, items, id);
      assert rows.Keys - (left - {id}) == rows.Keys - left + {id};
      left := left - {id};
      items := items + [rows[id]];
    }
    assert rows.Keys - left == rows.Keys;
    h := Sort(items, Older);
    SortedIsHistory(rows, items);
  }

  lemma SortedIsHistory(rows: map<string, Memory>, items: seq<Memory>)
    requires Values(rows, rows.Keys, items)
    ensures IsHistory(rows, rows.Keys, Sort(items, Older))
  {
    OlderOrder();
    OlderSeparates(items);
    SortSorted(items, Older);
    SameElements(Sort(items, Older), items);
    SameElements(items, Sort(items, Older));
    OnceCounts(items);
    SortedOnce(Sort(items, Older));
    SortedHas(rows, items, Sort(items, Older));
  }

  lemma SortedHas(rows: map<string, Memory>, items: seq<Memory>, h: seq<Memory>)
    requires Values(rows, rows.Keys, items)
    requires (forall x :: x in h ==> x in items) && (forall x :: x in items ==> x in h)
    ensures forall i :: 0 <= i < |h| ==> h[i].id in rows && h[i] == rows[h[i].id]
    ensures forall id :: id in rows ==> Has(h, id)
  {
    forall i | 0 <= i < |h| ensures h[i].id in rows && h[i] == rows[h[i].id] {
      assert h[i] in items;
    }
    forall id | id in rows ensures Has(h, id) {
      assert Has(items, id);
      var i :| 0 <= i < |items| && items[i].id == id;
      assert items[i] in h;
    }
  }

  /** Sorted and without repetition means strictly ordered. */
  lemma SortedOnce(h: seq<Memory>)
    requires Sorted(h, Older) && Separates(multiset(h), Older) && forall x :: multiset(h)[x] <= 1
    ensures forall i, j :: 0 <= i < j < |h| ==> Older(h[i], h[j])
  {
    hide Older;
    forall i, j | 0 <= i < j < |h| ensures Older(h[i], h[j]) {
      assert h[i] in multiset(h) && h[j] in multiset(h);
      DifferentPlaces(h, i, j);
    }
  }

  lemma DifferentPlaces<T>(h: seq<T>, i: nat, j: nat)
    requires i < j < |h| && forall x :: multiset(h)[x] <= 1
    ensures h[i] != h[j]
  {
    Extract(h, j);
    var rest := h[..j] + h[j + 1..];
    assert rest[i] == h[i] && rest[i] in multiset(rest);
    assert multiset(h)[h[j]] <= 1;
  }

  // ---- when every member yields the same history ----

  ghost predicate SingleScope(t: Table, x: string)
    requires x in t
  {
    forall y :: y in t && InLineage(t, x, y) ==> t[y].scope == t[x].scope
  }

  lemma {:induction false} FollowPath(t: Table, y: string, x: string, p: seq<string>)
    requires y in t && InLineage(t, y, x) && Path(t, t[y].scope, p) && p[0] == x
    ensures InLineage(t, y, p[|p| - 1])
  {
    if |p| > 1 {
      var q := p[..|p| - 1];
      FollowPath(t, y, x, q);
      assert Edge(t, t[y].scope, p[|p| - 2], p[|p| - 1]);
      Extend(t, y, q[|q| - 1], p[|p| - 1]);
    }
  }

  lemma JoinLineage(t: Table, y: string, x: string, z: string)
    requires x in t && InLineage(t, y, x) && InLineage(t, x, z) && t[y].scope == t[x].scope
    ensures InLineage(t, y, z)
  {
    var p :| Path(t, t[x].scope, p) && p[0] == x && p[|p| - 1] == z;
    FollowPath(t, y, x, p);
  }

  /** In a lineage with one scope every step can be taken back. */
  lemma {:induction false} WayBack(t: Table, x: string, p: seq<string>)
    requires TableOk(t) && x in t && SingleScope(t, x) && Path(t, t[x].scope, p) && p[0] == x
    ensures p[|p| - 1] in t && InLineage(t, p[|p| - 1], x) && InLineage(t, x, p[|p| - 1])
  {
    Self(t, x);
    if |p| > 1 {
      var a, b := p[|p| - 2], p[|p| - 1];
      WayBack(t, x, p[..|p| - 1]);
      assert Edge(t, t[x].scope, a, b);
      Extend(t, x, a, b);
      Self(t, b);
      hide InLineage;
      assert t[b].scope == t[x].scope;
      Extend(t, b, b, a);
      JoinLineage(t, b, a, x);
    }
  }

  /** With one scope, every member of a lineage has that lineage. */
  lemma SameLineage(t: Table, x: string, y: string)
    requires TableOk(t) && x in t && SingleScope(t, x) && y in Lineage(t, x)
    ensures Lineage(t, y) == Lineage(t, x)
  {
    var p :| Path(t, t[x].scope, p) && p[0] == x && p[|p| - 1] == y;
    WayBack(t, x, p);
    hide InLineage;
    forall z | z in t ensures InLineage(t, x, z) <==> InLineage(t, y, z) {
      if InLineage(t, x, z) { JoinLineage(t, y, x, z); }
      if InLineage(t, y, z) { JoinLineage(t, x, y, z); }
    }
  }

  // ---- lineages that span scopes ----

  predicate Up(t: Table, x: string, y: string) {
    x in t && Parent(t, x) == Some(y)
  }

  /** A path that only ever goes from an item to what it replaces. */
  ghost predicate UpPath(t: Table, p: seq<string>) {
    p != [] && p[0] in t && forall i :: 0 <= i < |p| - 1 ==> Up(t, p[i], p[i + 1])
  }

  lemma UpFront(t: Table, p: seq<string>)
    requires UpPath(t, p) && |p| > 1
    ensures UpPath(t, p[..|p| - 1]) && Up(t, p[|p| - 2], p[|p| - 1])
  {
    var q := p[..|p| - 1];
    forall i | 0 <= i < |q| - 1 ensures Up(t, q[i], q[i + 1]) { assert Up(t, p[i], p[i + 1]); }
  }

  lemma PathFront(t: Table, scope: (string, string), p: seq<string>)
    requires Path(t, scope, p) && |p| > 1
    ensures Path(t, scope, p[..|p| - 1]) && Edge(t, scope, p[|p| - 2], p[|p| - 1])
  {
    var q := p[..|p| - 1];
    forall i | 0 <= i < |q| - 1 ensures Edge(t, scope, q[i], q[i + 1]) { assert Edge(t, scope, p[i], p[i + 1]); }
  }

  /** x replaces y, directly or through others, or is y. */
  ghost predicate Above(t: Table, x: string, y: string) {
    exists p :: UpPath(t, p) && p[0] == x && p[|p| - 1] == y
  }

  lemma AboveSelf(t: Table, x: string)
    requires x in t
    ensures Above(t, x, x)
  {
    assert UpPath(t, [x]);
  }

  lemma AboveNext(t: Table, x: string, y: string, z: string)
    requires Above(t, x, y) && Up(t, y, z)
    ensures Above(t, x, z)
  {
    var p :| UpPath(t, p) && p[0] == x && p[|p| - 1] == y;
    var q := p + [z];
    forall i | 0 <= i < |q| - 1 ensures Up(t, q[i], q[i + 1]) {
      if i < |p| - 1 { assert Up(t, p[i], p[i + 1]); }
    }
    assert UpPath(t, q);
  }

  lemma AboveJoin(t: Table, x: string, y: string, z: string)
    requires Above(t, x, y) && Above(t, y, z)
    ensures Above(t, x, z)
  {
    var p :| UpPath(t, p) && p[0] == y && p[|p| - 1] == z;
    AboveAlong(t, x, p);
  }

  lemma {:induction false} AboveAlong(t: Table, x: string, p: seq<string>)
    requires UpPath(t, p) && Above(t, x, p[0])
    ensures Above(t, x, p[|p| - 1])
  {
    if |p| > 1 {
      UpFront(t, p);
      AboveAlong(t, x, p[..|p| - 1]);
      AboveNext(t, x, p[|p| - 2], p[|p| - 1]);
    }
  }

  /** What is replaced, directly or not, belongs to the lineage, whatever its scope. */
  lemma {:induction false} AboveInLineage(t: Table, x: string, p: seq<string>)
    requires x in t && UpPath(t, p) && p[0] == x
    ensures p[|p| - 1] in t && InLineage(t, x, p[|p| - 1])
  {
    if |p| == 1 {
      Self(t, x);
    } else {
      UpFront(t, p);
      AboveInLineage(t, x, p[..|p| - 1]);
      Extend(t, x, p[|p| - 2], p[|p| - 1]);
    }
  }

  /** Reached from something above x by replacements in the scope only. */
  ghost predicate Below(t: Table, x: string, scope: (string, string), p: seq<string>) {
    && p != [] && Above(t, x, p[0])
    && forall i :: 0 <= i < |p| - 1 ==> Child(t, scope, p[i], p[i + 1])
  }

  lemma BelowStart(t: Table, x: string, scope: (string, string), y: string)
    requires Above(t, x, y)
    ensures Below(t, x, scope, [y])
  {
  }

  /** Going up again only undoes going down. */
  lemma BelowUp(t: Table, x: string, scope: (string, string), p: seq<string>, y: string) returns (q: seq<string>)
    requires TableOk(t) && Below(t, x, scope, p) && Up(t, p[|p| - 1], y)
    ensures Below(t, x, scope, q) && q[|q| - 1] == y
  {
    hide Above;
    if |p| == 1 {
      AboveNext(t, x, p[0], y);
      q := [y];
    } else {
      assert Child(t, scope, p[|p| - 2], p[|p| - 1]);
      q := p[..|p| - 1];
      forall i | 0 <= i < |q| - 1 ensures Child(t, scope, q[i], q[i + 1]) { assert Child(t, scope, p[i], p[i + 1]); }
    }
  }

  lemma BelowDown(t: Table, x: string, scope: (string, string), p: seq<string>, y: string)
    requires Below(t, x, scope, p) && Child(t, scope, p[|p| - 1], y)
    ensures Below(t, x, scope, p + [y])
  {
    var q := p + [y];
    forall i | 0 <= i < |q| - 1 ensures Child(t, scope, q[i], q[i + 1]) {
      if i < |p| - 1 { assert Child(t, scope, p[i], p[i + 1]); }
    }
  }

  /** Every member of a lineage is found by going up and then down in the scope. */
  lemma {:induction false} UpThenDown(t: Table, x: string, p: seq<string>) returns (q: seq<string>)
    requires TableOk(t) && x in t && Path(t, t[x].scope, p) && p[0] == x
    ensures Below(t, x, t[x].scope, q) && q[|q| - 1] == p[|p| - 1]
  {
    hide Above, Below, TableOk;
    var n, scope := |p| - 1, t[x].scope;
    if n == 0 {
      AboveSelf(t, x);
      q := [x];
      BelowStart(t, x, scope, x);
    } else {
      PathFront(t, scope, p);
      var r := UpThenDown(t, x, p[..n]);
      if Up(t, p[n - 1], p[n]) {
        q := BelowUp(t, x, scope, r, p[n]);
      } else {
        BelowDown(t, x, scope, r, p[n]);
        q := r + [p[n]];
      }
    }
  }

  lemma BelowOther(t: Table, x: string, scope: (string, string), p: seq<string>)
    requires Below(t, x, scope, p) && p[|p| - 1] in t && t[p[|p| - 1]].scope != scope
    ensures Above(t, x, p[|p| - 1])
  {
    assert |p| > 1 ==> Child(t, scope, p[|p| - 2], p[|p| - 1]);
  }

  /** A member of another scope is above. */
  lemma OtherScopeIsAbove(t: Table, x: string, z: string)
    requires TableOk(t) && x in t && z in Lineage(t, x) && t[z].scope != t[x].scope
    ensures Above(t, x, z)
  {
    var p :| Path(t, t[x].scope, p) && p[0] == x && p[|p| - 1] == z;
    var q := UpThenDown(t, x, p);
    BelowOther(t, x, t[x].scope, q);
  }

  /** Every member of the lineage replaces every other, directly or through others, and no member
      has a replacement, in the scope of a member, that is not one. */
  ghost predicate Ring(t: Table, x: string)
    requires x in t
  {
    && (forall y, z :: y in Lineage(t, x) && z in Lineage(t, x) ==> Above(t, y, z))
    && (forall m, y, c :: m in Lineage(t, x) && y in Lineage(t, x) && Child(t, t[m].scope, y, c) ==> c in Lineage(t, x))
  }

  ghost predicate SameForAll(t: Table, x: string) {
    forall y :: y in Lineage(t, x) ==> Lineage(t, y) == Lineage(t, x)
  }

  lemma {:induction false} StaysInRing(t: Table, x: string, y: string, p: seq<string>)
    requires TableOk(t) && x in t && Ring(t, x) && y in Lineage(t, x) && Path(t, t[y].scope, p) && p[0] == y
    ensures p[|p| - 1] in Lineage(t, x)
    decreases |p|
  {
    if |p| > 1 {
      var n := |p| - 1;
      PathFront(t, t[y].scope, p);
      StaysInRing(t, x, y, p[..n]);
      hide Above, Path;
      if Up(t, p[n - 1], p[n]) { Extend(t, x, p[n - 1], p[n]); }
    }
  }

  lemma RingShares(t: Table, x: string, y: string)
    requires TableOk(t) && x in t && Ring(t, x) && y in Lineage(t, x)
    ensures Lineage(t, y) == Lineage(t, x)
  {
    forall z | z in Lineage(t, y) ensures z in Lineage(t, x) {
      var p :| Path(t, t[y].scope, p) && p[0] == y && p[|p| - 1] == z;
      StaysInRing(t, x, y, p);
    }
    forall z | z in Lineage(t, x) ensures z in Lineage(t, y) {
      assert Above(t, y, z);
      var p :| UpPath(t, p) && p[0] == y && p[|p| - 1] == z;
      AboveInLineage(t, y, p);
    }
  }

  lemma SharedIsRing(t: Table, x: string)
    requires TableOk(t) && x in t && SameForAll(t, x) && !SingleScope(t, x)
    ensures Ring(t, x)
  {
    Self(t, x);
    var w :| w in t && InLineage(t, x, w) && t[w].scope != t[x].scope;
    assert x in Lineage(t, x) && w in Lineage(t, x);
    forall y, z | y in Lineage(t, x) && z in Lineage(t, x) ensures Above(t, y, z) {
      assert Lineage(t, y) == Lineage(t, x);
      if t[z].scope != t[y].scope {
        OtherScopeIsAbove(t, y, z);
      } else {
        var u := if t[w].scope != t[y].scope then w else x;
        assert Lineage(t, u) == Lineage(t, x);
        OtherScopeIsAbove(t, y, u);
        OtherScopeIsAbove(t, u, z);
        AboveJoin(t, y, u, z);
      }
    }
    forall m, y, c | m in Lineage(t, x) && y in Lineage(t, x) && Child(t, t[m].scope, y, c) ensures c in Lineage(t, x) {
      assert Lineage(t, m) == Lineage(t, x);
      Extend(t, m, y, c);
    }
  }

  /** Every member of a lineage yields the same history iff they share one scope, or form a ring
      in which each replaces every other. */
  lemma SameHistoryIff(t: Table, x: string)
    requires TableOk(t) && x in t
    ensures SameForAll(t, x) <==> SingleScope(t, x) || Ring(t, x)
  {
    if SingleScope(t, x) {
      forall y | y in Lineage(t, x) ensures Lineage(t, y) == Lineage(t, x) { SameLineage(t, x, y); }
    } else if Ring(t, x) {
      forall y | y in Lineage(t, x) ensures Lineage(t, y) == Lineage(t, x) { RingShares(t, x, y); }
    } else if SameForAll(t, x) {
      SharedIsRing(t, x);
    }
  }

  /** Replacement never runs in circles: some rank falls from every item to what it replaces. */
  ghost predicate Ranked(t: Table, rank: string -> nat) {
    forall x :: x in t && Parent(t, x).Some? ==> rank(Parent(t, x).value) < rank(x)
  }

  lemma {:induction false} RankFalls(t: Table, rank: string -> nat, p: seq<string>)
    requires Ranked(t, rank) && UpPath(t, p)
    ensures |p| > 1 ==> rank(p[|p| - 1]) < rank(p[0])
  {
    if |p| > 1 {
      UpFront(t, p);
      RankFalls(t, rank, p[..|p| - 1]);
    }
  }

  lemma NoCircle(t: Table, rank: string -> nat, x: string, y: string)
    requires Ranked(t, rank) && Above(t, x, y) && Above(t, y, x)
    ensures x == y
  {
    var p :| UpPath(t, p) && p[0] == x && p[|p| - 1] == y;
    var q :| UpPath(t, q) && q[0] == y && q[|q| - 1] == x;
    RankFalls(t, rank, p);
    RankFalls(t, rank, q);
  }

  /** Without circles one scope is the only way. */
  lemma SameHistoryWithoutCircles(t: Table, rank: string -> nat, x: string)
    requires TableOk(t) && Ranked(t, rank) && x in t
    ensures SameForAll(t, x) <==> SingleScope(t, x)
  {
    SameHistoryIff(t, x);
    Self(t, x);
    hide InLineage, Above, SameForAll, Ranked, TableOk;
    if Ring(t, x) {
      forall y | y in t && InLineage(t, x, y) ensures t[y].scope == t[x].scope {
        assert y in Lineage(t, x) && x in Lineage(t, x);
        NoCircle(t, rank, x, y);
      }
    }
  }

  // ---- the smallest tables ----

  /** b replaces a in another scope: b sees a, a does not see b. */
  const Crossing: Table := map["a" := Memory("a", ("task", "1"), "t1", None), "b" := Memory("b", ("task", "2"), "t2", Some("a"))]

  lemma CrossingDiffers()
    ensures TableOk(Crossing) && !SingleScope(Crossing, "b")
    ensures Lineage(Crossing, "b") == {"a", "b"} && Lineage(Crossing, "a") == {"a"}
  {
    var t := Crossing;
    Self(t, "a");
    Self(t, "b");
    assert Edge(t, t["b"].scope, "b", "a");
    Extend(t, "b", "b", "a");
    forall y | y in Lineage(t, "a") ensures y == "a" {
      var p :| Path(t, t["a"].scope, p) && p[0] == "a" && p[|p| - 1] == y;
      ClosedContains(t, "a", {"a"}, p);
    }
  }

  /** Two items of different scopes that replace each other see the same history. */
  const Circle: Table := map["a" := Memory("a", ("task", "1"), "t1", Some("b")), "b" := Memory("b", ("task", "2"), "t2", Some("a"))]

  lemma CircleShares()
    ensures TableOk(Circle) && !SingleScope(Circle, "a")
    ensures Lineage(Circle, "a") == Lineage(Circle, "b") == {"a", "b"}
  {
    var t := Circle;
    Self(t, "a");
    Self(t, "b");
    Extend(t, "a", "a", "b");
    Extend(t, "b", "b", "a");
  }

  /** A circle with one more replacement: every step between scopes can be taken back, and the
      histories differ all the same, because c is in the scope of b alone. */
  const Branch: Table := Circle["c" := Memory("c", ("task", "2"), "t3", Some("b"))]

  lemma BranchLineages()
    ensures TableOk(Branch) && Lineage(Branch, "a") == {"a", "b"} && {"a", "b", "c"} <= Lineage(Branch, "b")
  {
    var t := Branch;
    Self(t, "a");
    Self(t, "b");
    Extend(t, "a", "a", "b");
    Extend(t, "b", "b", "a");
    assert Edge(t, t["b"].scope, "b", "c");
    Extend(t, "b", "b", "c");
    hide InLineage;
    forall y | y in Lineage(t, "a") ensures y in {"a", "b"} { BranchFromA(y); }
  }

  lemma BranchFromA(y: string)
    requires y in Lineage(Branch, "a")
    ensures y in {"a", "b"}
  {
    var t := Branch;
    var p :| Path(t, t["a"].scope, p) && p[0] == "a" && p[|p| - 1] == y;
    hide Path;
    ClosedContains(t, "a", {"a", "b"}, p);
  }

  lemma BranchDiffers()
    ensures TableOk(Branch) && !SingleScope(Branch, "a") && !Ring(Branch, "a")
    ensures "b" in Lineage(Branch, "a") && "a" in Lineage(Branch, "b") && Lineage(Branch, "a") != Lineage(Branch, "b")
  {
    BranchLineages();
    assert "a" in Branch;
    hide Lineage, Ring, SingleScope, TableOk, Branch;
    SameHistoryIff(Branch, "a");
  }
}
