// Context candidates: their trust and protection, and the two total orders that decide which
// of them win and where they are placed.

module Candidates {
  import opened Common
  import opened Lists
  import opened Ordering

  datatype Trust = System | TrustedLocal | User | ToolOutput | ExternalUntrusted

  function TrustRank(t: Trust): int {
    match t case System => 0 case TrustedLocal => 1 case User => 2 case ToolOutput => 3 case ExternalUntrusted => 4
  }

  /** The values the pipeline distinguishes; any other text is carried along. */
  datatype Kind = Fact | Constraint | EvidenceRef | Todo | NamedKind(kindName: string)
  datatype Layer = L0 | L1 | NamedLayer(layerName: string)
  datatype Source = RuntimePrompt | NamedSource(sourceName: string)

  datatype Candidate = Candidate(
    id: string, source: Source, layer: Layer, kind: Kind, priority: int, trust: Trust, freshness: int,
    tokens: nat, content: string, bucket: string, pinned: bool, sensitive: bool,
    group: Option<string>, resolved: bool)

  /** External material cannot protect itself, whatever it declares. */
  predicate Protected(c: Candidate) {
    && c.trust != ExternalUntrusted
    && (c.pinned || c.layer in {L0, L1} || c.kind in {Constraint, EvidenceRef} || (c.kind == Todo && !c.resolved))
  }

  predicate Evictable(c: Candidate) {
    !Protected(c)
  }

  /** Trust, then facts, then priority, then freshness, then the id. */
  function WinnerKey(c: Candidate): seq<int> {
    [TrustRank(c.trust), if c.kind == Fact then 0 else 1, -c.priority, -c.freshness] + Codes(c.id)
  }

  predicate Wins(a: Candidate, b: Candidate) {
    LexLess(WinnerKey(a), WinnerKey(b))
  }

  const DEFAULT_ORDER: seq<string> := ["protected", "context", "task", "retrieval", "recent", "tool", "user"]

  /** The position of the bucket, or the number of buckets when it is not listed. */
  function BucketRank(order: seq<string>, bucket: string): (r: int)
    ensures 0 <= r <= |order|
    ensures r < |order| ==> order[r] == bucket && bucket !in order[..r]
    ensures r == |order| ==> bucket !in order
  {
    if order == [] || order[0] == bucket then 0 else 1 + BucketRank(order[1..], bucket)
  }

  function StableKey(c: Candidate, order: seq<string>): seq<int> {
    [BucketRank(order, c.bucket), -c.priority] + Codes(c.id)
  }

  /** The order in which candidates are placed: bucket, priority, id. */
  function Placed(order: seq<string>): (Candidate, Candidate) -> bool {
    (a: Candidate, b: Candidate) => LexLess(StableKey(a, order), StableKey(b, order))
  }

  /** No candidate occurs twice and no id is shared. */
  ghost predicate Distinct(m: multiset<Candidate>) {
    && (forall c :: m[c] <= 1)
    && (forall a, b :: a in m && b in m && a.id == b.id ==> a == b)
  }

  lemma DistinctPart(part: multiset<Candidate>, whole: multiset<Candidate>)
    requires Distinct(whole) && part <= whole
    ensures Distinct(part)
  {
    assert forall c :: part[c] <= whole[c];
  }

  lemma WinnerKeyNames(a: Candidate, b: Candidate)
    requires WinnerKey(a) == WinnerKey(b)
    ensures a.id == b.id
  {
    assert Codes(a.id) == WinnerKey(a)[4..];
    assert Codes(b.id) == WinnerKey(b)[4..];
    CodesInjective(a.id, b.id);
  }

  lemma StableKeyNames(a: Candidate, b: Candidate, order: seq<string>)
    requires StableKey(a, order) == StableKey(b, order)
    ensures a.id == b.id
  {
    assert Codes(a.id) == StableKey(a, order)[2..];
    assert Codes(b.id) == StableKey(b, order)[2..];
    CodesInjective(a.id, b.id);
  }

  /** Both orders are strict and separate any two candidates with different ids. */
  lemma WinsOrders(m: multiset<Candidate>)
    requires Distinct(m)
    ensures StrictOrder(Wins) && Separates(m, Wins)
  {
    forall a, b, c | Wins(a, b) && Wins(b, c) ensures Wins(a, c) {
      LexTransitive(WinnerKey(a), WinnerKey(b), WinnerKey(c));
    }
    forall a, b | Wins(a, b) ensures !Wins(b, a) { LexTrichotomy(WinnerKey(a), WinnerKey(b)); }
    forall a, b | a in m && b in m && a != b ensures Wins(a, b) || Wins(b, a) {
      if WinnerKey(a) == WinnerKey(b) { WinnerKeyNames(a, b); }
      LexTrichotomy(WinnerKey(a), WinnerKey(b));
    }
  }

  lemma PlacedOrders(m: multiset<Candidate>, order: seq<string>)
    requires Distinct(m)
    ensures StrictOrder(Placed(order)) && Separates(m, Placed(order))
  {
    var less := Placed(order);
    forall a, b, c | less(a, b) && less(b, c) ensures less(a, c) {
      LexTransitive(StableKey(a, order), StableKey(b, order), StableKey(c, order));
    }
    forall a, b | less(a, b) ensures !less(b, a) { LexTrichotomy(StableKey(a, order), StableKey(b, order)); }
    forall a, b | a in m && b in m && a != b ensures less(a, b) || less(b, a) {
      if StableKey(a, order) == StableKey(b, order) { StableKeyNames(a, b, order); }
      LexTrichotomy(StableKey(a, order), StableKey(b, order));
    }
  }

  /** The candidate that wins against all others. */
  function Best(cs: seq<Candidate>): (w: Candidate)
    requires cs != []
    ensures w in cs
  {
    First(cs, Wins)
  }

  /** The candidate that every other wins against. */
  function Worst(cs: seq<Candidate>): (w: Candidate)
    requires cs != []
    ensures w in cs
  {
    First(cs, Reverse(Wins))
  }

  lemma BestWins(cs: seq<Candidate>, c: Candidate)
    requires c in cs && Distinct(multiset(cs))
    ensures Best(cs) == c || Wins(Best(cs), c)
  {
    WinsOrders(multiset(cs));
    FirstIsLeast(cs, Wins, c);
  }

  lemma WorstLoses(cs: seq<Candidate>, c: Candidate)
    requires c in cs && Distinct(multiset(cs))
    ensures Worst(cs) == c || Wins(c, Worst(cs))
  {
    WinsOrders(multiset(cs));
    ReverseStrict(multiset(cs), Wins);
    FirstIsLeast(cs, Reverse(Wins), c);
  }

  function IdOf(c: Candidate): string { c.id }

  function Ids(cs: seq<Candidate>): (r: seq<string>)
    ensures |r| == |cs|
    ensures forall i :: 0 <= i < |cs| ==> r[i] == cs[i].id
  {
    Map(cs, IdOf)
  }

  function NotNamed(id: string): Candidate -> bool {
    (c: Candidate) => c.id != id
  }

  lemma IdsConcat(a: seq<Candidate>, b: seq<Candidate>)
    ensures Ids(a + b) == Ids(a) + Ids(b)
    ensures multiset(Ids(a + b)) == multiset(Ids(a)) + multiset(Ids(b))
  {
    assert Ids(a + b) == Ids(a) + Ids(b);
  }

  lemma IdsPermuted(a: seq<Candidate>, b: seq<Candidate>)
    requires multiset(a) == multiset(b)
    ensures multiset(Ids(a)) == multiset(Ids(b))
  {
    MapPermuted(a, b, IdOf);
  }

  lemma OthersKept(cs: seq<Candidate>, c: Candidate)
    requires Distinct(multiset(cs)) && c in cs
    ensures multiset(Filter(cs, NotNamed(c.id))) == multiset(cs) - multiset{c}
    ensures multiset(Filter(cs, NotNamed(c.id)) + [c]) == multiset(cs)
  {
    FilterMembers(cs, NotNamed(c.id));
    hide Filter;
    assert c in multiset(cs);
    forall x ensures multiset(Filter(cs, NotNamed(c.id)))[x] == (multiset(cs) - multiset{c})[x] {
      if x in multiset(cs) && x != c { assert x.id != c.id; }
    }
  }

  /** Removing a candidate by id removes exactly that candidate. */
  lemma RemoveOne(cs: seq<Candidate>, c: Candidate)
    requires Distinct(multiset(cs)) && c in cs
    ensures multiset(Filter(cs, NotNamed(c.id))) == multiset(cs) - multiset{c}
    ensures multiset(Ids(Filter(cs, NotNamed(c.id)))) + multiset{c.id} == multiset(Ids(cs))
  {
    var rest := Filter(cs, NotNamed(c.id));
    OthersKept(cs, c);
    hide Distinct, Filter, Ids;
    IdsPermuted(rest + [c], cs);
    IdsConcat(rest, [c]);
    assert Ids([c]) == [c.id];
  }
}
