// What each operation of the desktop's queue does to the pending items, and which items are the
// ones that get lost.

module QueueRules {
  import opened Lists
  import opened DesktopQueue

  /** A publication appends; at capacity the oldest item is lost for it; and a snapshot first
      takes the place of any snapshot that is still pending. */
  lemma PublishIs(capacity: nat, q: Queue, snapshot: bool, payload: int)
    requires 2 <= capacity && QueueOk(capacity, q)
    ensures var op := if snapshot then PublishSnapshotOp(payload) else PublishEventOp(payload);
            var (was, now, item) := (q.ledger, Step(capacity, q, op), Item(q.published + 1, snapshot, payload));
            var waiting := if snapshot then Filter(was.items, (i: Item) => !i.snapshot) else was.items;
            && now.published == q.published + 1
            && now.ledger.items == (if |waiting| == capacity then waiting[1..] else waiting) + [item]
            && now.ledger.delivered == was.delivered && now.ledger.cleared == was.cleared
            && now.ledger.lost + multiset(now.ledger.items) == was.lost + multiset(was.items) + multiset{item}
  {
    var keep := (i: Item) => !i.snapshot;
    var l := if snapshot then Retained(q.ledger) else q.ledger;
    SameFilter(q.ledger.items, keep);
    EventsOnly(q.ledger.items);
    GoneCounts(q.ledger.items, Filter(q.ledger.items, IsEvent));
    hide Filter, QueueOk, Numbers;
    assert l.lost + multiset(l.items) == q.ledger.lost + multiset(q.ledger.items);
    PushedIs(capacity, q, l, snapshot, payload);
    hide Pushed;
  }

  lemma PushedIs(capacity: nat, q: Queue, l: Ledger, snapshot: bool, payload: int)
    requires 2 <= capacity
    ensures var (now, item) := (Pushed(capacity, q, l, snapshot, payload), Item(q.published + 1, snapshot, payload));
            && now.published == q.published + 1
            && now.ledger.items == (if |l.items| == capacity then l.items[1..] else l.items) + [item]
            && now.ledger.delivered == l.delivered && now.ledger.cleared == l.cleared
            && now.ledger.lost + multiset(now.ledger.items) == l.lost + multiset(l.items) + multiset{item}
  {
    if |l.items| == capacity { assert l.items == [l.items[0]] + l.items[1..]; }
  }

  lemma {:induction false} SameFilter(items: seq<Item>, keep: Item -> bool)
    requires forall i :: keep(i) <==> !i.snapshot
    ensures Filter(items, keep) == Filter(items, IsEvent)
  {
    if items != [] { SameFilter(items[..|items| - 1], keep); }
  }

  /** Draining delivers the oldest pending items, as many as asked for, between 1 and 500, and
      there are; any other number is refused and changes nothing. */
  lemma {:induction false} DrainIs(capacity: nat, q: Queue, limit: int)
    ensures var (was, now) := (q.ledger, Step(capacity, q, DrainOp(limit)));
            && now.published == q.published && now.ledger.lost == was.lost && now.ledger.cleared == was.cleared
            && (1 <= limit <= 500 ==>
                  && var n := if |was.items| < limit then |was.items| else limit;
                  && now.ledger.delivered == was.delivered + was.items[..n] && now.ledger.items == was.items[n..])
            && (limit < 1 || 500 < limit ==> now == q)
  {
    if 1 <= limit <= 500 { DrainedIs(q.ledger, limit); }
  }

  lemma {:induction false} DrainedIs(l: Ledger, limit: nat)
    ensures var n := if |l.items| < limit then |l.items| else limit;
            Drained(l, limit) == l.(delivered := l.delivered + l.items[..n], items := l.items[n..])
    decreases limit
  {
    if limit != 0 && l.items != [] {
      DrainedIs(Taken(l), limit - 1);
      var n := if |l.items| < limit then |l.items| else limit;
      assert l.items[1..][n - 1..] == l.items[n..];
      assert [l.items[0]] + l.items[1..][..n - 1] == l.items[..n];
      assert l.delivered + [l.items[0]] + l.items[1..][..n - 1] == l.delivered + l.items[..n];
    } else {
      assert l.delivered + [] == l.delivered;
    }
  }

  lemma ClearIs(capacity: nat, q: Queue)
    ensures var (was, now) := (q.ledger, Step(capacity, q, ClearOp));
            && now.published == q.published && now.ledger.items == [] && now.ledger.delivered == was.delivered
            && now.ledger.lost == was.lost && now.ledger.cleared == was.cleared + multiset(was.items)
  {
  }

  // ---- which items are lost ----

  /** A lost item gave way to newer ones: a lost event is older than everything pending, and a
      lost snapshot older than any snapshot pending. */
  ghost predicate OldestLost(l: Ledger) {
    forall x, y :: x in l.lost && y in l.items && (x.snapshot ==> y.snapshot) ==> x.serial < y.serial
  }

  lemma LostEarlier(capacity: nat, q: Queue, x: Item)
    requires QueueOk(capacity, q) && (x in q.ledger.lost || x in q.ledger.items)
    ensures 1 <= x.serial <= q.published
  {
    assert x in multiset(q.ledger.items) + multiset(q.ledger.delivered) + q.ledger.lost + q.ledger.cleared;
  }

  lemma PublishLosesOldest(capacity: nat, q: Queue, snapshot: bool, payload: int)
    requires 2 <= capacity && QueueOk(capacity, q) && OldestLost(q.ledger)
    ensures var op := if snapshot then PublishSnapshotOp(payload) else PublishEventOp(payload);
            OldestLost(Step(capacity, q, op).ledger)
  {
    hide *;
    var op := if snapshot then PublishSnapshotOp(payload) else PublishEventOp(payload);
    var keep := (i: Item) => !i.snapshot;
    var waiting := if snapshot then Filter(q.ledger.items, keep) else q.ledger.items;
    PublishIs(capacity, q, snapshot, payload);
    WaitingRises(capacity, q, keep);
    forall x | x in q.ledger.lost || x in q.ledger.items ensures x.serial <= q.published { LostEarlier(capacity, q, x); }
    forall x | x in Step(capacity, q, op).ledger.lost
      ensures x in q.ledger.lost || (x in q.ledger.items && snapshot && x.snapshot) || (|waiting| == capacity && x == waiting[0])
    {
      NowLost(capacity, q, snapshot, payload, x);
    }
    StillOldest(capacity, q.ledger, Step(capacity, q, op).ledger, waiting, Item(q.published + 1, snapshot, payload));
  }

  lemma StillOldest(capacity: nat, was: Ledger, now: Ledger, waiting: seq<Item>, item: Item)
    requires 2 <= capacity && OldestLost(was) && Rising(waiting)
    requires now.items == (if |waiting| == capacity then waiting[1..] else waiting) + [item]
    requires forall y :: y in waiting ==> y in was.items && (item.snapshot ==> !y.snapshot)
    requires forall x :: x in was.lost || x in was.items ==> x.serial < item.serial
    requires forall x :: x in now.lost ==>
               x in was.lost || (x in was.items && item.snapshot && x.snapshot) || (|waiting| == capacity && x == waiting[0])
    ensures OldestLost(now)
  {
    var rest := if |waiting| == capacity then waiting[1..] else waiting;
    hide Rising;
    forall x, y | x in now.lost && y in now.items && (x.snapshot ==> y.snapshot) ensures x.serial < y.serial {
      assert y == item || y in rest;
      if y != item && x !in was.lost && |waiting| == capacity && x == waiting[0] { FirstIsOldest(waiting, y); }
    }
  }

  lemma NowLost(capacity: nat, q: Queue, snapshot: bool, payload: int, x: Item)
    requires 2 <= capacity
    ensures var op := if snapshot then PublishSnapshotOp(payload) else PublishEventOp(payload);
            var waiting := if snapshot then Filter(q.ledger.items, (i: Item) => !i.snapshot) else q.ledger.items;
            x in Step(capacity, q, op).ledger.lost ==>
              || x in q.ledger.lost || (x in q.ledger.items && snapshot && x.snapshot)
              || (|waiting| == capacity && x == waiting[0])
  {
    SameFilter(q.ledger.items, (i: Item) => !i.snapshot);
    FilterCounts(q.ledger.items, IsEvent, x);
    hide Filter;
    assert x in multiset(q.ledger.items) <==> x in q.ledger.items;
    if snapshot { RetainedLoses(q.ledger, x); }
    hide Retained;
  }

  lemma RetainedLoses(l: Ledger, x: Item)
    ensures Retained(l).items == Filter(l.items, IsEvent)
    ensures x in Retained(l).lost ==> x in l.lost || (x in l.items && x.snapshot)
  {
    FilterCounts(l.items, IsEvent, x);
    hide Filter;
    assert x in multiset(l.items) <==> x in l.items;
  }

  lemma WaitingRises(capacity: nat, q: Queue, keep: Item -> bool)
    requires QueueOk(capacity, q)
    ensures Rising(q.ledger.items) && Rising(Filter(q.ledger.items, keep))
    ensures forall x :: x in Filter(q.ledger.items, keep) ==> x in q.ledger.items && keep(x)
  {
    var all := q.ledger.delivered + q.ledger.items;
    forall i, j | 0 <= i < j < |q.ledger.items| ensures q.ledger.items[i].serial < q.ledger.items[j].serial {
      var d := |q.ledger.delivered|;
      assert all[d + i] == q.ledger.items[i] && all[d + j] == q.ledger.items[j];
    }
    FilterRising(q.ledger.items, keep);
  }

  lemma FirstIsOldest(items: seq<Item>, y: Item)
    requires items != [] && Rising(items) && y in items[1..]
    ensures items[0].serial < y.serial
  {
  }

  /** In every run: whatever was lost was older than what is still pending of its kind. */
  lemma {:induction false} OldestAreLost(capacity: nat, ops: seq<Op>)
    requires 2 <= capacity
    ensures OldestLost(After(capacity, ops).ledger)
  {
    if ops != [] {
      var front, op := ops[..|ops| - 1], ops[|ops| - 1];
      OldestAreLost(capacity, front);
      ReachableOk(capacity, front);
      var q := After(capacity, front);
      hide QueueOk;
      match op
      case PublishEventOp(payload) => PublishLosesOldest(capacity, q, false, payload);
      case PublishSnapshotOp(payload) => PublishLosesOldest(capacity, q, true, payload);
      case DrainOp(limit) => DrainIs(capacity, q, limit);
      case ClearOp => ClearIs(capacity, q);
    }
  }
}
