/**
 What the cache is meant to be: two lists of entries, each cut down to the longest prefix that stays under its
 cap. From a well-linked cache every operation is exactly the intended one, except a lookup that hits the hot
 queue and a store of a key that is already cached.
 */
module LruRefinement {

  import opened Common
  import opened LruState

  datatype Entry = Entry(key: Key, value: Value, isExist: bool)

  datatype TwoQueue = TwoQueue(maxCold: nat, maxHot: nat, hot: seq<Entry>, cold: seq<Entry>)

  // --- The intended cache ----------------------------------------------------------------------------

  function Weight(es: seq<Entry>): nat {
    if es == [] then 0 else Weight(es[..|es| - 1]) + |es[|es| - 1].key| + |es[|es| - 1].value|
  }

  /** The longest prefix that weighs less than the cap. */
  function Fit(es: seq<Entry>, cap: nat): seq<Entry> {
    if es == [] || Weight(es) < cap then es else Fit(es[..|es| - 1], cap)
  }

  /** What is kept is a prefix that weighs less than the cap, and every longer one weighs too much. */
  ghost predicate LongestBelow(kept: seq<Entry>, es: seq<Entry>, cap: nat) {
    && kept <= es && Weight(kept) < cap
    && forall k: nat | |kept| < k <= |es| :: cap <= Weight(es[..k])
  }

  lemma WeightOfPrefix(es: seq<Entry>, k: nat)
    requires k <= |es|
    ensures Weight(es[..k]) <= Weight(es)
  {
    if k < |es| {
      assert es[..|es| - 1][..k] == es[..k];
      WeightOfPrefix(es[..|es| - 1], k);
    } else {
      assert es[..k] == es;
    }
  }

  lemma {:induction false} FitIsLongest(es: seq<Entry>, cap: nat)
    requires 0 < cap
    ensures LongestBelow(Fit(es, cap), es, cap)
  {
    if es != [] && cap <= Weight(es) {
      var front := es[..|es| - 1];
      FitIsLongest(front, cap);
      forall k: nat | |Fit(es, cap)| < k <= |es| ensures cap <= Weight(es[..k]) {
        if k < |es| {
          assert front[..k] == es[..k];
        } else {
          assert es[..k] == es;
        }
      }
    }
  }

  lemma FitIsPrefix(es: seq<Entry>, cap: nat)
    requires 0 < cap
    ensures Fit(es, cap) <= es && Weight(Fit(es, cap)) < cap
  {
    FitIsLongest(es, cap);
  }

  function Position(es: seq<Entry>, key: Key): (i: nat)
    ensures i <= |es|
    ensures i < |es| ==> es[i].key == key
    ensures forall j: nat | j < i :: es[j].key != key
  {
    FirstWhere(es, (e: Entry) => e.key == key)
  }

  function Removed<T>(s: seq<T>, i: nat): seq<T>
    requires i < |s|
  {
    s[..i] + s[i + 1..]
  }

  /** Both queues with everything that does not fit pushed on: from hot to cold, and from cold out. */
  function Settled(q: TwoQueue): TwoQueue {
    var hot := Fit(q.hot, q.maxHot);
    q.(hot := hot, cold := if |hot| <= |q.hot| then Fit(q.hot[|hot|..] + q.cold, q.maxCold) else q.cold)
  }

  /** A lookup moves the entry it finds to the front of the hot queue. */
  function Touched(q: TwoQueue, key: Key): TwoQueue {
    var i := Position(q.cold, key);
    var j := Position(q.hot, key);
    if i < |q.cold| then Settled(q.(hot := [q.cold[i]] + q.hot, cold := Removed(q.cold, i)))
    else if j < |q.hot| then q.(hot := [q.hot[j]] + Removed(q.hot, j))
    else q
  }

  function Lookup(q: TwoQueue, key: Key): Hit {
    var i := Position(q.cold, key);
    var j := Position(q.hot, key);
    if i < |q.cold| then Answer(q.cold[i])
    else if j < |q.hot| then Answer(q.hot[j])
    else Miss
  }

  function Answer(e: Entry): Hit {
    if e.isExist then Found(e.value) else Erased
  }

  /** A new entry goes to the front of the cold queue. */
  function Stored(q: TwoQueue, e: Entry): TwoQueue {
    q.(cold := Fit([e] + q.cold, q.maxCold))
  }

  // --- The map and the lists -------------------------------------------------------------------------

  function All(c: Cache): seq<Node> {
    c.hot + c.cold
  }

  /** Every node is the one its key's map entry leads to. */
  ghost predicate Mapped(nodes: seq<Node>, index: map<Key, Slot>, next: nat) {
    forall i: nat | i < |nodes| ::
      nodes[i].id < next && nodes[i].key in index && index[nodes[i].key] == Slot(nodes[i].slot, nodes[i].id)
  }

  ghost predicate Distinct(nodes: seq<Node>) {
    forall i: nat, j: nat | i < |nodes| && j < |nodes| && nodes[i].id == nodes[j].id :: i == j
  }

  ghost predicate Holds(nodes: seq<Node>, key: Key) {
    exists i: nat :: i < |nodes| && nodes[i].key == key
  }

  ghost predicate Covered(nodes: seq<Node>, index: map<Key, Slot>) {
    forall k | k in index :: Holds(nodes, k)
  }

  /** Nodes and map entries are in bijection. */
  ghost predicate Bijection(nodes: seq<Node>, index: map<Key, Slot>, next: nat) {
    Mapped(nodes, index, next) && Distinct(nodes) && Covered(nodes, index)
  }

  function View(n: Node): Entry {
    Entry(n.key, n.value, n.isExist)
  }

  function Views(nodes: seq<Node>): (es: seq<Entry>)
    ensures |es| == |nodes|
  {
    seq(|nodes|, i requires 0 <= i < |nodes| => View(nodes[i]))
  }

  function Abstract(c: Cache): TwoQueue {
    TwoQueue(c.maxCold, c.maxHot, Views(c.hot), Views(c.cold))
  }

  ghost predicate Marked(nodes: seq<Node>, hot: bool) {
    forall i: nat | i < |nodes| :: nodes[i].isHot == hot
  }

  ghost predicate Linked(c: Cache) {
    && Bijection(All(c), c.index, c.nextNode)
    && Marked(c.hot, true) && Marked(c.cold, false)
    && c.hotUsage == Weight(Views(c.hot))
    && c.coldUsage == Weight(Views(c.cold))
    && c.hotUsage + c.coldUsage < TWO_TO_THE_32
    && 0 < c.maxHot && 0 < c.maxCold
  }

  /** The invariant of the cache: linked, and both queues below their caps. */
  ghost predicate Valid(c: Cache) {
    && Linked(c)
    && c.hotUsage < c.maxHot
    && c.coldUsage < c.maxCold
  }

  lemma LastLeaves(nodes: seq<Node>, index: map<Key, Slot>, next: nat)
    requires Bijection(nodes, index, next) && nodes != []
    ensures Bijection(Front(nodes), index - {Last(nodes).key}, next)
  {
    var front, index1 := Front(nodes), index - {Last(nodes).key};
    forall k | k in index1 ensures Holds(front, k) {
      var i: nat :| i < |nodes| && nodes[i].key == k;
      assert front[i].key == k;
    }
  }

  lemma Renumbered(nodes: seq<Node>, index: map<Key, Slot>, next: nat, i: nat, hot: bool)
    requires Bijection(nodes, index, next) && i < |nodes|
    ensures var nodes1 := nodes[i := nodes[i].(id := next, isHot := hot)];
            Bijection(nodes1, index[nodes[i].key := Slot(nodes[i].slot, next)], next + 1)
  {
    var nodes1 := nodes[i := nodes[i].(id := next, isHot := hot)];
    var index1 := index[nodes[i].key := Slot(nodes[i].slot, next)];
    forall k | k in index1 ensures Holds(nodes1, k) {
      var j: nat :| j < |nodes| && nodes[j].key == k;
      assert nodes1[j].key == k;
    }
  }

  lemma AliveAt(nodes: seq<Node>, index: map<Key, Slot>, next: nat, i: nat)
    requires Bijection(nodes, index, next) && i < |nodes|
    ensures nodes[i].key in index && index[nodes[i].key] == Slot(nodes[i].slot, nodes[i].id)
  {
  }

  /** Where the nodes of [s[i]] + Removed(s, i) come from. */
  function Source(i: nat, j: nat): nat {
    if j == 0 then i else if j <= i then j - 1 else j
  }

  lemma ToFront(nodes: seq<Node>, index: map<Key, Slot>, next: nat, i: nat)
    requires Bijection(nodes, index, next) && i < |nodes|
    ensures Bijection([nodes[i]] + Removed(nodes, i), index, next)
  {
    var nodes1 := [nodes[i]] + Removed(nodes, i);
    assert forall j: nat | j < |nodes1| :: nodes1[j] == nodes[Source(i, j)];
    hide Removed, Distinct, Covered, Mapped, Source;
    ToFrontMapped(nodes, index, next, nodes1, i);
    ToFrontDistinct(nodes, nodes1, i);
    ToFrontCovers(nodes, index, nodes1, i);
  }

  lemma ToFrontMapped(nodes: seq<Node>, index: map<Key, Slot>, next: nat, nodes1: seq<Node>, i: nat)
    requires Mapped(nodes, index, next) && i < |nodes| == |nodes1|
    requires forall j: nat | j < |nodes1| :: nodes1[j] == nodes[Source(i, j)]
    ensures Mapped(nodes1, index, next)
  {
  }

  lemma ToFrontDistinct(nodes: seq<Node>, nodes1: seq<Node>, i: nat)
    requires Distinct(nodes) && i < |nodes| == |nodes1|
    requires forall j: nat | j < |nodes1| :: nodes1[j] == nodes[Source(i, j)]
    ensures Distinct(nodes1)
  {
  }

  lemma ToFrontCovers(nodes: seq<Node>, index: map<Key, Slot>, nodes1: seq<Node>, i: nat)
    requires Covered(nodes, index) && i < |nodes| == |nodes1|
    requires forall j: nat | j < |nodes1| :: nodes1[j] == nodes[Source(i, j)]
    ensures Covered(nodes1, index)
  {
    forall k | k in index ensures Holds(nodes1, k) {
      assert Holds(nodes, k);
      var j: nat :| j < |nodes| && nodes[j].key == k;
      var j1: nat := if j == i then 0 else if j < i then j + 1 else j;
      assert Source(i, j1) == j;
      assert nodes1[j1].key == k;
    }
  }

  lemma Inserted(nodes: seq<Node>, index: map<Key, Slot>, next: nat, i: nat, n: Node)
    requires Bijection(nodes, index, next) && i <= |nodes|
    requires n.key !in index && n.id == next
    ensures Bijection(nodes[..i] + [n] + nodes[i..], index[n.key := Slot(n.slot, next)], next + 1)
  {
    var nodes1 := nodes[..i] + [n] + nodes[i..];
    assert nodes1[i] == n;
    assert forall j: nat | j < |nodes1| && j != i :: nodes1[j] == nodes[if j < i then j else j - 1];
    hide Mapped, Distinct, Covered;
    InsertedMapped(nodes, index, next, nodes1, i, n);
    InsertedDistinct(nodes, index, next, nodes1, i, n);
    InsertedCovers(nodes, index, nodes1, i, n, Slot(n.slot, next));
  }

  lemma InsertedMapped(nodes: seq<Node>, index: map<Key, Slot>, next: nat, nodes1: seq<Node>, i: nat, n: Node)
    requires Mapped(nodes, index, next) && i < |nodes1| == |nodes| + 1 && nodes1[i] == n
    requires n.key !in index && n.id == next
    requires forall j: nat | j < |nodes1| && j != i :: nodes1[j] == nodes[if j < i then j else j - 1]
    ensures Mapped(nodes1, index[n.key := Slot(n.slot, next)], next + 1)
  {
  }

  lemma InsertedDistinct(nodes: seq<Node>, index: map<Key, Slot>, next: nat, nodes1: seq<Node>, i: nat, n: Node)
    requires Mapped(nodes, index, next) && Distinct(nodes)
    requires i < |nodes1| == |nodes| + 1 && nodes1[i] == n && n.id == next
    requires forall j: nat | j < |nodes1| && j != i :: nodes1[j] == nodes[if j < i then j else j - 1]
    ensures Distinct(nodes1)
  {
  }

  lemma InsertedCovers(nodes: seq<Node>, index: map<Key, Slot>, nodes1: seq<Node>, i: nat, n: Node, slot: Slot)
    requires Covered(nodes, index)
    requires i < |nodes1| == |nodes| + 1 && nodes1[i] == n
    requires forall j: nat | j < |nodes1| && j != i :: nodes1[j] == nodes[if j < i then j else j - 1]
    ensures Covered(nodes1, index[n.key := slot])
  {
    forall k | k in index[n.key := slot] ensures Holds(nodes1, k) {
      if k == n.key {
        assert nodes1[i].key == k;
      } else {
        assert Holds(nodes, k);
        var j: nat :| j < |nodes| && nodes[j].key == k;
        assert nodes1[if j < i then j else j + 1].key == k;
      }
    }
  }

  // --- The loops -------------------------------------------------------------------------------------

  lemma ViewsOfFront(nodes: seq<Node>)
    requires nodes != []
    ensures Views(Front(nodes)) == Views(nodes)[..|nodes| - 1]
    ensures Weight(Views(nodes)) == Weight(Views(Front(nodes))) + Size(Last(nodes))
  {
    assert Views(Front(nodes)) == Views(nodes)[..|nodes| - 1];
  }

  lemma WeightOfConcat(a: seq<Entry>, b: seq<Entry>)
    ensures Weight(a + b) == Weight(a) + Weight(b)
  {
    if b == [] {
      assert a + b == a;
    } else {
      assert (a + b)[..|a + b| - 1] == a + b[..|b| - 1];
      WeightOfConcat(a, b[..|b| - 1]);
    }
  }

  lemma ViewsOfConcat(a: seq<Node>, b: seq<Node>)
    ensures Views(a + b) == Views(a) + Views(b)
  {
  }

  lemma EvictOneKeepsLinked(c: Cache)
    requires Linked(c) && c.cold != []
    ensures KeyAlive(c, Last(c.cold))
    ensures var c1 := EvictOne(c).cache;
            && Linked(c1) && c1.cold == Front(c.cold) && c1.hotUsage == c.hotUsage
            && Abstract(c1) == Abstract(c).(cold := Views(c.cold)[..|c.cold| - 1])
  {
    hide Bijection, Views, Weight;
    assert Last(All(c)) == Last(c.cold) && Front(All(c)) == c.hot + Front(c.cold);
    AliveAt(All(c), c.index, c.nextNode, |All(c)| - 1);
    LastLeaves(All(c), c.index, c.nextNode);
    ViewsOfFront(c.cold);
  }

  /** The eviction loop, from any linked cache: it ends, and what stays is the longest fitting prefix. */
  lemma {:induction false} EvictColdFits(c: Cache)
    requires Linked(c) && c.hotUsage < c.maxHot
    ensures EvictCold(c).Done?
    ensures Valid(EvictCold(c).cache)
    ensures Abstract(EvictCold(c).cache) == Abstract(c).(cold := Fit(Views(c.cold), c.maxCold))
    decreases |c.cold|
  {
    hide Bijection, Views, KeyAlive;
    if c.maxCold <= c.coldUsage {
      assert c.cold != [];
      EvictOneKeepsLinked(c);
      EvictColdFits(EvictOne(c).cache);
    }
  }

  lemma Single(n: Node)
    ensures Views([n]) == [View(n)]
    ensures Weight([View(n)]) == Size(n)
  {
    assert [View(n)][..0] == [];
  }

  lemma DemoteOneKeepsLinked(c: Cache)
    requires Linked(c) && c.hot != []
    ensures KeyAlive(c, Last(c.hot)) && DemoteOne(c, true).Done?
    ensures var c1 := DemoteOne(c, true).cache;
            && Linked(c1) && c1.hot == Front(c.hot)
            && Abstract(c1) == Abstract(c).(hot := Views(c.hot)[..|c.hot| - 1], cold := [View(Last(c.hot))] + Views(c.cold))
  {
    hide Bijection, Views, Weight;
    var last := Last(c.hot);
    var i := |c.hot| - 1;
    var moved := last.(id := c.nextNode, isHot := false);
    assert All(c)[i] == last;
    AliveAt(All(c), c.index, c.nextNode, i);
    Renumbered(All(c), c.index, c.nextNode, i, false);
    assert Front(c.hot) + ([moved] + c.cold) == All(c)[i := moved];
    ViewsOfFront(c.hot);
    ViewsOfConcat([moved], c.cold);
    Single(moved);
    WeightOfConcat([View(last)], Views(c.cold));
  }

  /** The demotion loop, from any linked cache: what stays hot is the longest fitting prefix, the rest turns cold. */
  lemma {:induction false} DemoteHotFits(c: Cache)
    requires Linked(c)
    ensures DemoteHot(c, true).Done?
    ensures var c1, kept := DemoteHot(c, true).cache, Fit(Views(c.hot), c.maxHot);
            && Linked(c1) && c1.hotUsage < c1.maxHot && kept <= Views(c.hot)
            && Abstract(c1) == Abstract(c).(hot := kept, cold := Views(c.hot)[|kept|..] + Views(c.cold))
    decreases |c.hot|
  {
    hide *;
    LinkedParts(c);
    DemoteHotUnfolds(c);
    FitUnfolds(Views(c.hot), c.maxHot);
    if c.maxHot <= c.hotUsage {
      DemoteOneKeepsLinked(c);
      var c1 := DemoteOne(c, true).cache;
      LinkedParts(c1);
      DemoteHotFits(c1);
      var kept := Fit(Views(c1.hot), c1.maxHot);
      FitIsPrefix(Views(c1.hot), c1.maxHot);
      LastMoves(Views(c.hot), kept, Views(c.cold), View(Last(c.hot)));
    } else {
      assert Views(c.hot)[|c.hot|..] + Views(c.cold) == Views(c.cold);
    }
  }

  lemma DemoteHotUnfolds(c: Cache)
    ensures c.hotUsage < c.maxHot ==> DemoteHot(c, true) == Done(c)
    ensures c.maxHot <= c.hotUsage && DemoteOne(c, true).Done? ==>
              DemoteHot(c, true) == DemoteHot(DemoteOne(c, true).cache, true)
  {
    hide DemoteOne;
  }

  lemma FitUnfolds(es: seq<Entry>, cap: nat)
    ensures Weight(es) < cap ==> Fit(es, cap) == es
    ensures es != [] && cap <= Weight(es) ==> Fit(es, cap) == Fit(es[..|es| - 1], cap)
  {
    hide Weight;
  }

  lemma LinkedParts(c: Cache)
    requires Linked(c)
    ensures c.hotUsage == Weight(Views(c.hot)) && 0 < c.maxHot && 0 < c.maxCold
    ensures c.maxHot <= c.hotUsage ==> c.hot != [] && Views(c.hot)[|c.hot| - 1] == View(Last(c.hot))
    ensures Abstract(c) == TwoQueue(c.maxCold, c.maxHot, Views(c.hot), Views(c.cold))
  {
    hide Bijection, Marked;
  }

  lemma LastMoves(hot: seq<Entry>, kept: seq<Entry>, cold: seq<Entry>, last: Entry)
    requires hot != [] && last == hot[|hot| - 1] && kept <= hot[..|hot| - 1]
    ensures hot[..|hot| - 1][|kept|..] + ([last] + cold) == hot[|kept|..] + cold
  {
  }
}
