// The bounded queue between the runtime and the desktop: publishing never waits, snapshots
// are coalesced, overflow drops the oldest item, and everything published is accounted for.

module DesktopQueue {
  import opened Common
  import opened Lists

  /** An item with the number of its publication, which the queue itself does not look at. */
  datatype Item = Item(serial: nat, snapshot: bool, payload: int)

  ghost predicate Rising(items: seq<Item>) {
    forall i, j :: 0 <= i < j < |items| ==> items[i].serial < items[j].serial
  }

  ghost predicate OneSnapshot(items: seq<Item>) {
    forall i, j :: 0 <= i < j < |items| ==> !(items[i].snapshot && items[j].snapshot)
  }

  predicate IsEvent(i: Item) { !i.snapshot }

  ghost predicate NoSnapshot(items: seq<Item>) {
    forall i :: 0 <= i < |items| ==> !items[i].snapshot
  }

  /** All items published so far are numbered 1 .. n, once each. */
  ghost predicate Numbers(all: multiset<Item>, n: nat) {
    && |all| == n
    && (forall x :: x in all ==> 1 <= x.serial <= n && all[x] == 1)
    && (forall x, y :: x in all && y in all && x.serial == y.serial ==> x == y)
  }

  lemma {:induction false} FilterRising(items: seq<Item>, keep: Item -> bool)
    requires Rising(items)
    ensures Rising(Filter(items, keep)) && forall x :: x in Filter(items, keep) ==> x in items && keep(x)
    ensures |Filter(items, keep)| <= |items|
  {
    if items != [] {
      var n := |items| - 1;
      FilterRising(items[..n], keep);
      forall x | x in Filter(items[..n], keep) ensures x.serial < items[n].serial {
        var k :| 0 <= k < n && items[k] == x;
      }
    }
  }

  /** Where everything published so far is. */
  datatype Ledger = Ledger(items: seq<Item>, delivered: seq<Item>, lost: multiset<Item>, cleared: multiset<Item>)

  /** Everything published is pending, delivered, lost or cleared, once; what is pending comes
      after what was delivered, in publication order, with at most one snapshot. */
  ghost predicate Accounted(l: Ledger, published: nat) {
    && Rising(l.delivered + l.items) && OneSnapshot(l.items)
    && Numbers(multiset(l.items) + multiset(l.delivered) + l.lost + l.cleared, published)
  }

  function Retained(l: Ledger): Ledger {
    var kept := Filter(l.items, IsEvent);
    l.(items := kept, lost := l.lost + (multiset(l.items) - multiset(kept)))
  }

  lemma {:induction false} EventsOnly(items: seq<Item>)
    ensures multiset(Filter(items, IsEvent)) <= multiset(items)
    ensures |Filter(items, IsEvent)| <= |items|
    ensures forall i :: 0 <= i < |Filter(items, IsEvent)| ==> !Filter(items, IsEvent)[i].snapshot
  {
    if items != [] {
      EventsOnly(items[..|items| - 1]);
      assert items == items[..|items| - 1] + [items[|items| - 1]];
    }
  }

  lemma GoneCounts(items: seq<Item>, kept: seq<Item>)
    requires multiset(kept) <= multiset(items)
    ensures |multiset(items) - multiset(kept)| == |items| - |kept|
    ensures multiset(kept) + (multiset(items) - multiset(kept)) == multiset(items)
  {
    assert multiset(kept) + (multiset(items) - multiset(kept)) == multiset(items);
    assert |multiset(kept)| == |kept| && |multiset(items)| == |items|;
  }

  lemma MoveLost(kept: multiset<Item>, gone: multiset<Item>, delivered: multiset<Item>, lost: multiset<Item>, cleared: multiset<Item>)
    ensures kept + delivered + (lost + gone) + cleared == (kept + gone) + delivered + lost + cleared
  {
  }

  lemma RetainedItems(l: Ledger)
    ensures Retained(l).items == Filter(l.items, IsEvent)
  {
  }

  lemma RetainedOk(l: Ledger, published: nat)
    requires Accounted(l, published)
    ensures Accounted(Retained(l), published)
    ensures |Retained(l).items| <= |l.items|
    ensures |Retained(l).lost| == |l.lost| + |l.items| - |Retained(l).items|
    ensures NoSnapshot(Retained(l).items)
  {
    var kept := Filter(l.items, IsEvent);
    EventsOnly(l.items);
    GoneCounts(l.items, kept);
    RetainedRising(l.delivered, l.items);
    hide Filter, Rising, OneSnapshot, Numbers;
    MoveLost(multiset(kept), multiset(l.items) - multiset(kept), multiset(l.delivered), l.lost, l.cleared);
  }

  function Popped(l: Ledger): Ledger
    requires l.items != []
  {
    l.(items := l.items[1..], lost := l.lost + multiset{l.items[0]})
  }

  lemma PoppedOk(l: Ledger, published: nat)
    requires Accounted(l, published) && l.items != []
    ensures Accounted(Popped(l), published)
  {
    assert l.items == [l.items[0]] + l.items[1..];
    DropRising(l.delivered, l.items);
    assert multiset(l.items[1..]) + multiset(l.delivered) + (l.lost + multiset{l.items[0]}) + l.cleared
           == multiset(l.items) + multiset(l.delivered) + l.lost + l.cleared;
  }

  lemma PushedOk(l: Ledger, published: nat, item: Item)
    requires Accounted(l, published) && item.serial == published + 1
    requires item.snapshot ==> NoSnapshot(l.items)
    ensures Accounted(l.(items := l.items + [item]), published + 1)
  {
    var all := multiset(l.items) + multiset(l.delivered) + l.lost + l.cleared;
    PushRising(l.delivered, l.items, item, all, published);
    PushSnapshot(l.items, item);
    hide Rising, Numbers, OneSnapshot, NoSnapshot;
    assert multiset(l.items + [item]) == multiset(l.items) + multiset{item};
    MoveIn(multiset(l.items), multiset(l.delivered), l.lost, l.cleared, item);
  }

  lemma PushSnapshot(items: seq<Item>, item: Item)
    requires OneSnapshot(items) && (item.snapshot ==> NoSnapshot(items))
    ensures OneSnapshot(items + [item])
  {
  }

  lemma MoveIn(items: multiset<Item>, delivered: multiset<Item>, lost: multiset<Item>, cleared: multiset<Item>, item: Item)
    ensures items + multiset{item} + delivered + lost + cleared == items + delivered + lost + cleared + multiset{item}
  {
  }

  function Taken(l: Ledger): Ledger
    requires l.items != []
  {
    l.(items := l.items[1..], delivered := l.delivered + [l.items[0]])
  }

  lemma TakenOk(l: Ledger, published: nat)
    requires Accounted(l, published) && l.items != []
    ensures Accounted(Taken(l), published)
  {
    assert l.items == [l.items[0]] + l.items[1..];
    assert l.delivered + l.items == (l.delivered + [l.items[0]]) + l.items[1..];
    assert multiset(l.items[1..]) + multiset(l.delivered + [l.items[0]]) + l.lost + l.cleared
           == multiset(l.items) + multiset(l.delivered) + l.lost + l.cleared;
  }

  function Emptied(l: Ledger): Ledger {
    l.(items := [], cleared := l.cleared + multiset(l.items))
  }

  lemma EmptiedOk(l: Ledger, published: nat)
    requires Accounted(l, published)
    ensures Accounted(Emptied(l), published)
  {
    FrontRising(l.delivered, l.items);
    assert l.delivered + [] == l.delivered;
    assert multiset([]) + multiset(l.delivered) + l.lost + (l.cleared + multiset(l.items))
           == multiset(l.items) + multiset(l.delivered) + l.lost + l.cleared;
  }

  // ---- the queue as a whole ----

  /** The pending items, what became of the others, and how many were published. */
  datatype Queue = Queue(ledger: Ledger, published: nat)

  datatype Op = PublishEventOp(payload: int) | PublishSnapshotOp(payload: int) | DrainOp(limit: int) | ClearOp

  const Empty := Queue(Ledger([], [], multiset{}, multiset{}), 0)

  /** How room is made at capacity: the oldest item goes. */
  function Overflowed(capacity: nat, l: Ledger): Ledger {
    if |l.items| == capacity && l.items != [] then Popped(l) else l
  }

  function Pushed(capacity: nat, q: Queue, l: Ledger, snapshot: bool, payload: int): Queue {
    var room := Overflowed(capacity, l);
    Queue(room.(items := room.items + [Item(q.published + 1, snapshot, payload)]), q.published + 1)
  }

  /** Delivers the oldest items, at most limit of them. */
  function Drained(l: Ledger, limit: nat): Ledger
    decreases limit
  {
    if limit == 0 || l.items == [] then l else Drained(Taken(l), limit - 1)
  }

  function Step(capacity: nat, q: Queue, op: Op): Queue {
    match op
    case PublishEventOp(payload) => Pushed(capacity, q, q.ledger, false, payload)
    case PublishSnapshotOp(payload) => Pushed(capacity, q, Retained(q.ledger), true, payload)
    case DrainOp(limit) => if 1 <= limit <= 500 then q.(ledger := Drained(q.ledger, limit)) else q
    case ClearOp => q.(ledger := Emptied(q.ledger))
  }

  function After(capacity: nat, ops: seq<Op>): Queue {
    if ops == [] then Empty else Step(capacity, After(capacity, ops[..|ops| - 1]), ops[|ops| - 1])
  }

  ghost predicate QueueOk(capacity: nat, q: Queue) {
    Accounted(q.ledger, q.published) && |q.ledger.items| <= capacity
  }

  lemma {:induction false} DrainedOk(l: Ledger, limit: nat, published: nat)
    requires Accounted(l, published)
    ensures Accounted(Drained(l, limit), published) && |Drained(l, limit).items| <= |l.items|
    decreases limit
  {
    hide Accounted;
    if limit != 0 && l.items != [] {
      TakenOk(l, published);
      DrainedOk(Taken(l), limit - 1, published);
    }
  }

  lemma OverflowedOk(capacity: nat, l: Ledger, published: nat)
    requires 2 <= capacity && Accounted(l, published) && |l.items| <= capacity
    ensures Accounted(Overflowed(capacity, l), published) && |Overflowed(capacity, l).items| < capacity
    ensures NoSnapshot(l.items) ==> NoSnapshot(Overflowed(capacity, l).items)
  {
    hide Accounted;
    if |l.items| == capacity { PoppedOk(l, published); }
  }

  lemma PushedRoom(capacity: nat, l: Ledger, published: nat, item: Item)
    requires 2 <= capacity && Accounted(l, published) && |l.items| <= capacity && item.serial == published + 1
    requires item.snapshot ==> NoSnapshot(l.items)
    ensures var room := Overflowed(capacity, l); Accounted(room.(items := room.items + [item]), published + 1)
  {
    OverflowedOk(capacity, l, published);
    var room := Overflowed(capacity, l);
    hide *;
    PushedOk(room, published, item);
  }

  lemma PushedKeeps(capacity: nat, q: Queue, l: Ledger, snapshot: bool, payload: int)
    requires 2 <= capacity && Accounted(l, q.published) && |l.items| <= capacity
    requires snapshot ==> NoSnapshot(l.items)
    ensures QueueOk(capacity, Pushed(capacity, q, l, snapshot, payload))
  {
    hide Accounted, NoSnapshot;
    PushedRoom(capacity, l, q.published, Item(q.published + 1, snapshot, payload));
  }

  lemma StepKeeps(capacity: nat, q: Queue, op: Op)
    requires 2 <= capacity && QueueOk(capacity, q)
    ensures QueueOk(capacity, Step(capacity, q, op))
  {
    hide Accounted, Pushed, Retained;
    match op
    case PublishEventOp(payload) => PushedKeeps(capacity, q, q.ledger, false, payload);
    case PublishSnapshotOp(payload) =>
      RetainedOk(q.ledger, q.published);
      PushedKeeps(capacity, q, Retained(q.ledger), true, payload);
    case DrainOp(limit) => if 1 <= limit <= 500 { DrainedOk(q.ledger, limit, q.published); }
    case ClearOp => EmptiedOk(q.ledger, q.published);
  }

  lemma EmptyOk()
    ensures Accounted(Empty.ledger, 0)
  {
  }

  lemma {:induction false} ReachableOk(capacity: nat, ops: seq<Op>)
    requires 2 <= capacity
    ensures QueueOk(capacity, After(capacity, ops))
  {
    hide Accounted, Step;
    if ops == [] {
      EmptyOk();
    } else {
      ReachableOk(capacity, ops[..|ops| - 1]);
      StepKeeps(capacity, After(capacity, ops[..|ops| - 1]), ops[|ops| - 1]);
    }
  }

  /** After any operations: published = pending + drained + dropped + cleared, no more pending
      than the capacity, delivery in the order of publication, at most one pending snapshot. */
  lemma Conservation(capacity: nat, ops: seq<Op>)
    requires 2 <= capacity
    ensures var (l, published) := (After(capacity, ops).ledger, After(capacity, ops).published);
            && published == |l.items| + |l.delivered| + |l.lost| + |l.cleared| && |l.items| <= capacity
            && Rising(l.delivered + l.items) && OneSnapshot(l.items)
  {
    ReachableOk(capacity, ops);
    var l := After(capacity, ops).ledger;
    hide After, Rising, OneSnapshot;
    assert |multiset(l.items)| == |l.items| && |multiset(l.delivered)| == |l.delivered|;
  }

  class DesktopEventQueue {
    const capacity: nat
    var items: seq<Item>
    var dropped: nat

    // Bookkeeping for the specification: how much was published, and where it is.
    var published: nat
    ghost var ledger: Ledger

    ghost function State(): Queue
      reads this
    {
      Queue(ledger, published)
    }

    ghost predicate Valid()
      reads this
    {
      && 2 <= capacity && dropped == |ledger.lost| && ledger.items == items
      && QueueOk(capacity, State())
    }

    constructor (capacity: nat)
      requires 2 <= capacity
      ensures Valid() && this.capacity == capacity && State() == Empty
    {
      this.capacity := capacity;
      items, dropped, published := [], 0, 0;
      ledger := Empty.ledger;
    }

    method PublishEvent(payload: int)
      requires Valid()
      modifies this
      ensures Valid() && State() == Step(capacity, old(State()), PublishEventOp(payload))
    {
      hide Accounted;
      AppendWithOverflow(Item(published + 1, false, payload));
    }

    /** Only the newest pending snapshot is kept. */
    method PublishSnapshot(payload: int)
      requires Valid()
      modifies this
      ensures Valid() && State() == Step(capacity, old(State()), PublishSnapshotOp(payload))
    {
      hide Accounted, Retained, Filter;
      RemoveSnapshots();
      AppendWithOverflow(Item(published + 1, true, payload));
    }

    method RemoveSnapshots()
      requires Valid()
      modifies this`items, this`dropped, this`ledger
      ensures Valid() && ledger == Retained(old(ledger))
      ensures NoSnapshot(items)
    {
      hide Accounted, Retained;
      var retained: seq<Item> := [];
      for i := 0 to |items|
        invariant retained == Filter(items[..i], IsEvent)
      {
        assert items[..i + 1][..i] == items[..i];
        if !items[i].snapshot { retained := retained + [items[i]]; }
      }
      assert items[..|items|] == items;
      hide Filter;
      RetainedItems(ledger);
      RetainedOk(ledger, published);
      var removed := |items| - |retained|;
      items := retained;
      ledger := Retained(ledger);
      dropped := dropped + removed;
    }

    method AppendWithOverflow(item: Item)
      requires Valid() && item.serial == published + 1
      requires item.snapshot ==> NoSnapshot(items)
      modifies this
      ensures Valid() && State() == Pushed(capacity, old(State()), old(ledger), item.snapshot, item.payload)
    {
      hide Accounted;
      PushedKeeps(capacity, State(), ledger, item.snapshot, item.payload);
      while |items| >= capacity
        invariant Valid() && published == old(published)
        invariant ledger == old(ledger) || (|old(items)| == capacity && ledger == Popped(old(ledger)))
        decreases |items|
      {
        PoppedOk(ledger, published);
        ledger := Popped(ledger);
        items := items[1..];
        dropped := dropped + 1;
      }
      items := items + [item];
      ledger := ledger.(items := items);
      published := published + 1;
    }

    /** The oldest items, at most limit of them; a limit out of range is refused. */
    method Drain(limit: int) returns (r: Option<seq<Item>>)
      requires Valid()
      modifies this`items, this`ledger
      ensures Valid() && State() == Step(capacity, old(State()), DrainOp(limit))
      ensures r.Some? <==> 1 <= limit <= 500
      ensures r.Some? ==> r.value == (if |old(items)| <= limit then old(items) else old(items)[..limit])
      ensures r.Some? ==> ledger.delivered == old(ledger).delivered + r.value
    {
      hide Accounted;
      if !(1 <= limit <= 500) { return None; }
      var result := [];
      DrainedOk(ledger, limit, published);
      while items != [] && |result| < limit
        invariant Valid() && |result| <= limit && result + items == old(items)
        invariant Drained(ledger, limit - |result|) == Drained(old(ledger), limit)
        invariant ledger.delivered == old(ledger).delivered + result
        decreases |items|
      {
        TakenOk(ledger, published);
        assert items == [items[0]] + items[1..];
        result := result + [items[0]];
        ledger := Taken(ledger);
        items := items[1..];
      }
      r := Some(result);
    }

    method Clear()
      requires Valid()
      modifies this`items, this`ledger
      ensures Valid() && State() == Step(capacity, old(State()), ClearOp)
    {
      EmptiedOk(ledger, published);
      hide Accounted;
      items := [];
      ledger := Emptied(ledger);
    }
  }

  lemma RetainedRising(delivered: seq<Item>, items: seq<Item>)
    requires Rising(delivered + items)
    ensures Rising(delivered + Filter(items, IsEvent)) && OneSnapshot(Filter(items, IsEvent))
    ensures |Filter(items, IsEvent)| <= |items|
  {
    var all := delivered + items;
    forall i, j | 0 <= i < j < |items| ensures items[i].serial < items[j].serial {
      assert all[|delivered| + i] == items[i] && all[|delivered| + j] == items[j];
    }
    FilterRising(items, IsEvent);
    var kept := Filter(items, IsEvent);
    var less := delivered + kept;
    forall i, j | 0 <= i < j < |less| ensures less[i].serial < less[j].serial {
      if j < |delivered| {
        assert all[i] == less[i] && all[j] == less[j];
      } else if i < |delivered| {
        assert kept[j - |delivered|] in items;
        var k :| 0 <= k < |items| && items[k] == less[j];
        assert all[i] == less[i] && all[|delivered| + k] == less[j];
      }
    }
    forall i | 0 <= i < |kept| ensures !kept[i].snapshot { assert kept[i] in kept; }
  }

  lemma DropRising(delivered: seq<Item>, items: seq<Item>)
    requires Rising(delivered + items) && items != []
    ensures Rising(delivered + items[1..])
  {
    var all, less := delivered + items, delivered + items[1..];
    forall i, j | 0 <= i < j < |less| ensures less[i].serial < less[j].serial {
      assert less[i] == all[if i < |delivered| then i else i + 1];
      assert less[j] == all[if j < |delivered| then j else j + 1];
    }
  }

  lemma FrontRising(delivered: seq<Item>, items: seq<Item>)
    requires Rising(delivered + items)
    ensures Rising(delivered)
  {
    var all := delivered + items;
    forall i, j | 0 <= i < j < |delivered| ensures delivered[i].serial < delivered[j].serial {
      assert all[i] == delivered[i] && all[j] == delivered[j];
    }
  }

  lemma PushRising(delivered: seq<Item>, items: seq<Item>, item: Item, all: multiset<Item>, n: nat)
    requires Rising(delivered + items) && Numbers(all, n) && item.serial == n + 1
    requires multiset(items) <= all && multiset(delivered) <= all
    ensures Rising(delivered + (items + [item])) && Numbers(all + multiset{item}, n + 1)
  {
    var was, now := delivered + items, delivered + (items + [item]);
    SameElements(was, was);
    forall i | 0 <= i < |was| ensures was[i].serial <= n {
      assert was[i] in multiset(was) && multiset(was) == multiset(delivered) + multiset(items);
      assert was[i] in all;
    }
    forall i, j | 0 <= i < j < |now| ensures now[i].serial < now[j].serial {
      assert now[i] == was[i];
      if j < |was| { assert now[j] == was[j]; } else { assert now[j] == item; }
    }
    assert item !in all;
  }
}
