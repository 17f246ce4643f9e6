/** What holds over whole runs of the cache, and the two calls that break it. */
module LruCacheTheorems {

  import opened LruState
  import opened LruRefinement

  // --- One lookup ------------------------------------------------------------------------------------

  /** The lookup would find its key in the hot queue. */
  predicate HotHit(c: Cache, key: Key) {
    key in c.index && FindNode(c.hot, c.index[key].node) < |c.hot|
  }

  ghost predicate GetIntended(c: Cache, key: Key) {
    var o := Get(c, key);
    && o.GetDone?
    && o.hit == Lookup(Abstract(c), key)
    && Valid(o.cache)
    && Abstract(o.cache) == Touched(Abstract(c), key)
  }

  /** A key is that of the node its map entry leads to, and of no other. */
  lemma KeyIsId(c: Cache, key: Key, i: nat)
    requires Linked(c) && key in c.index && i < |All(c)|
    ensures All(c)[i].key == key <==> All(c)[i].id == c.index[key].node
  {
    assert Holds(All(c), key);
    var p: nat :| p < |All(c)| && All(c)[p].key == key;
  }

  lemma SameFirst(nodes: seq<Node>, id: nat, key: Key)
    requires forall i: nat | i < |nodes| :: nodes[i].key == key <==> nodes[i].id == id
    ensures FindNode(nodes, id) == Position(Views(nodes), key)
  {
    var es := Views(nodes);
    forall i: nat | i < |nodes| ensures es[i].key == key <==> nodes[i].id == id {
      assert es[i] == View(nodes[i]);
    }
    assert forall i: nat | i < |es| :: es[i].key == key <==> nodes[i].id == id;
  }

  lemma KeysAreIds(c: Cache, key: Key)
    requires Linked(c) && key in c.index
    ensures forall i: nat | i < |c.cold| :: c.cold[i].key == key <==> c.cold[i].id == c.index[key].node
    ensures forall i: nat | i < |c.hot| :: c.hot[i].key == key <==> c.hot[i].id == c.index[key].node
  {
    hide Bijection;
    forall i: nat | i < |c.cold| ensures c.cold[i].key == key <==> c.cold[i].id == c.index[key].node {
      KeyIsId(c, key, |c.hot| + i);
      assert All(c)[|c.hot| + i] == c.cold[i];
    }
    forall i: nat | i < |c.hot| ensures c.hot[i].key == key <==> c.hot[i].id == c.index[key].node {
      KeyIsId(c, key, i);
      assert All(c)[i] == c.hot[i];
    }
  }

  lemma HeldSomewhere(c: Cache, key: Key)
    requires Linked(c) && key in c.index
    ensures Holds(c.hot, key) || Holds(c.cold, key)
  {
    assert Holds(All(c), key);
    var p: nat :| p < |All(c)| && All(c)[p].key == key;
    if p < |c.hot| {
      assert c.hot[p].key == key;
    } else {
      assert c.cold[p - |c.hot|].key == key;
    }
  }

  lemma FoundWhere(c: Cache, key: Key)
    requires Linked(c) && key in c.index
    ensures var id := c.index[key].node;
            && FindNode(c.cold, id) == Position(Views(c.cold), key)
            && FindNode(c.hot, id) == Position(Views(c.hot), key)
            && (FindNode(c.hot, id) < |c.hot| <==> FindNode(c.cold, id) == |c.cold|)
  {
    hide Bijection, Views;
    var id := c.index[key].node;
    KeysAreIds(c, key);
    SameFirst(c.cold, id, key);
    SameFirst(c.hot, id, key);
    HeldSomewhere(c, key);
    if FindNode(c.hot, id) < |c.hot| && FindNode(c.cold, id) < |c.cold| {
      IdsDiffer(c, FindNode(c.hot, id), FindNode(c.cold, id));
    }
  }

  lemma IdsDiffer(c: Cache, j: nat, i: nat)
    requires Linked(c) && j < |c.hot| && i < |c.cold|
    ensures c.hot[j].id != c.cold[i].id
  {
    var p, q := j, |c.hot| + i;
    assert All(c)[p] == c.hot[j] && All(c)[q] == c.cold[i];
  }

  lemma MissedWhere(c: Cache, key: Key)
    requires Linked(c) && key !in c.index
    ensures Position(Views(c.cold), key) == |c.cold| && Position(Views(c.hot), key) == |c.hot|
  {
    var i, j := Position(Views(c.cold), key), Position(Views(c.hot), key);
    assert i < |c.cold| ==> All(c)[|c.hot| + i].key == key;
    assert j < |c.hot| ==> All(c)[j].key == key;
  }

  lemma WeightWithout(es: seq<Entry>, i: nat)
    requires i < |es|
    ensures Weight(es) == Weight(Removed(es, i)) + |es[i].key| + |es[i].value|
  {
    assert es == (es[..i] + [es[i]]) + es[i + 1..];
    WeightOfConcat(es[..i] + [es[i]], es[i + 1..]);
    assert (es[..i] + [es[i]])[..i] == es[..i];
    WeightOfConcat(es[..i], es[i + 1..]);
  }

  lemma PromoteKeepsBijection(c: Cache, key: Key, i: nat)
    requires Bijection(All(c), c.index, c.nextNode) && i < |c.cold| && c.cold[i].key == key
    ensures key in c.index && KeyAlive(c, c.cold[i])
    ensures var c1 := Promote(c, key, i); Bijection(All(c1), c1.index, c1.nextNode)
  {
    hide Bijection;
    var n, p := c.cold[i], |c.hot| + i;
    assert All(c)[p] == n;
    AliveAt(All(c), c.index, c.nextNode, p);
    var c1 := Promote(c, key, i);
    var n1 := n.(id := c.nextNode, isHot := true);
    Renumbered(All(c), c.index, c.nextNode, p, true);
    ToFront(All(c)[p := n1], c1.index, c1.nextNode, p);
    PromotedAll(c.hot, c.cold, i, n1);
  }

  lemma PromotedAll(hot: seq<Node>, cold: seq<Node>, i: nat, n1: Node)
    requires i < |cold|
    ensures [n1] + Removed((hot + cold)[|hot| + i := n1], |hot| + i) == ([n1] + hot) + (cold[..i] + cold[i + 1..])
  {
    var s, p := (hot + cold)[|hot| + i := n1], |hot| + i;
    assert s[..p] == hot + cold[..i];
    assert s[p + 1..] == cold[i + 1..];
  }

  lemma PromoteViews(hot: seq<Node>, cold: seq<Node>, i: nat, n1: Node)
    requires i < |cold| && View(n1) == View(cold[i])
    ensures Views([n1] + hot) == [Views(cold)[i]] + Views(hot)
    ensures Views(cold[..i] + cold[i + 1..]) == Removed(Views(cold), i)
    ensures Weight(Views([n1] + hot)) == Size(cold[i]) + Weight(Views(hot))
    ensures Weight(Views(cold)) == Size(cold[i]) + Weight(Views(cold[..i] + cold[i + 1..]))
  {
    assert Views([n1] + hot) == [Views(cold)[i]] + Views(hot);
    assert Views(cold[..i] + cold[i + 1..]) == Removed(Views(cold), i);
    WeightWithout(Views(cold), i);
    WeightOfConcat([View(n1)], Views(hot));
    Single(n1);
  }

  lemma PromoteKeepsLinked(c: Cache, key: Key, i: nat)
    requires Linked(c) && i < |c.cold| && c.cold[i].key == key
    ensures key in c.index && KeyAlive(c, c.cold[i])
    ensures var c1 := Promote(c, key, i);
            && Linked(c1)
            && Abstract(c1) == Abstract(c).(hot := [Views(c.cold)[i]] + Views(c.hot), cold := Removed(Views(c.cold), i))
  {
    hide Bijection, Views, Weight, Removed, KeyAlive;
    PromoteKeepsBijection(c, key, i);
    PromoteViews(c.hot, c.cold, i, c.cold[i].(id := c.nextNode, isHot := true));
  }

  /** From a valid cache a lookup is the intended one, and leaves a valid cache, exactly when it is no hot hit. */
  lemma GetIsIntendedUnlessHotHit(c: Cache, key: Key)
    requires Valid(c)
    ensures GetIntended(c, key) <==> !HotHit(c, key)
  {
    if key !in c.index {
      MissedWhere(c, key);
    } else {
      FoundWhere(c, key);
      if HotHit(c, key) {
        HotHitLeavesItsNode(c, key);
      } else {
        ColdHitIsIntended(c, key);
      }
    }
  }

  lemma FoundCold(c: Cache, key: Key, i: nat)
    requires Linked(c) && key in c.index && i == FindNode(c.cold, c.index[key].node) < |c.cold|
    ensures c.cold[i].key == key && !c.cold[i].isHot && Views(c.cold)[i] == View(c.cold[i])
  {
    assert All(c)[|c.hot| + i] == c.cold[i];
    KeyIsId(c, key, |c.hot| + i);
  }

  lemma GetFromCold(c: Cache, key: Key, i: nat)
    requires key in c.index && i == FindNode(c.cold, c.index[key].node) < |c.cold|
    requires !c.cold[i].isHot && KeyAlive(c, c.cold[i])
    requires DemoteHot(Promote(c, key, i), true).Done?
    requires EvictCold(DemoteHot(Promote(c, key, i), true).cache).Done?
    ensures Get(c, key) == GetDone(EvictCold(DemoteHot(Promote(c, key, i), true).cache).cache, Report(c.cold[i]))
  {
  }

  /** Both loops, run from any linked cache, settle it: the demoted entries go in front, the excess goes out. */
  lemma LoopsSettle(c: Cache)
    requires Linked(c)
    ensures DemoteHot(c, true).Done? && EvictCold(DemoteHot(c, true).cache).Done?
    ensures var c1 := EvictCold(DemoteHot(c, true).cache).cache;
            Valid(c1) && Abstract(c1) == Settled(Abstract(c))
  {
    hide Bijection, Views, Weight, Fit, DemoteHot, EvictCold;
    FitIsPrefix(Views(c.hot), c.maxHot);
    DemoteHotFits(c);
    EvictColdFits(DemoteHot(c, true).cache);
  }

  lemma ColdHitIsIntended(c: Cache, key: Key)
    requires Valid(c) && key in c.index && !HotHit(c, key)
    ensures GetIntended(c, key)
  {
    FoundWhere(c, key);
    var i := FindNode(c.cold, c.index[key].node);
    FoundCold(c, key, i);
    PromoteKeepsLinked(c, key, i);
    LoopsSettle(Promote(c, key, i));
    GetFromCold(c, key, i);
    hide Bijection, KeyAlive, FindNode, Position, Views, Weight, Fit, DemoteHot, EvictCold, Removed, Get, Promote, Settled, Valid;
  }

  lemma DuplicateViews(c: Cache, key: Key, j: nat)
    requires key in c.index && j < |c.hot| && c.hot[j].key == key
    ensures var e := View(c.hot[j]);
            Views(Duplicate(c, key, j).hot) == [e] + Views(c.hot)[j := e.(value := "")]
    ensures var c1 := Duplicate(c, key, j); 1 + j < |All(c1)| && All(c1)[0].key == key && All(c1)[1 + j].key == key
  {
  }

  /** A hit in the hot queue: the report is right, but the old node stays, without its value and without weight. */
  lemma HotHitLeavesItsNode(c: Cache, key: Key)
    requires Valid(c) && HotHit(c, key)
    ensures var o, e := Get(c, key), View(c.hot[FindNode(c.hot, c.index[key].node)]);
            && o.GetDone? && e.key == key && o.hit == Answer(e) == Lookup(Abstract(c), key)
            && Views(o.cache.hot) == [e] + Views(c.hot)[FindNode(c.hot, c.index[key].node) := e.(value := "")]
            && o.cache.cold == c.cold && MemSize(o.cache) == MemSize(c)
            && !Valid(o.cache)
  {
    FoundWhere(c, key);
    var j := FindNode(c.hot, c.index[key].node);
    FoundHot(c, key, j);
    var c1 := Duplicate(c, key, j);
    DuplicateViews(c, key, j);
    hide Bijection, KeyAlive, FindNode, Position, Views, Weight;
    NoTwins(c1, 0, 1 + j);
  }

  lemma FoundHot(c: Cache, key: Key, j: nat)
    requires Linked(c) && key in c.index && j == FindNode(c.hot, c.index[key].node) < |c.hot|
    ensures c.hot[j].key == key && c.hot[j].isHot && Views(c.hot)[j] == View(c.hot[j]) && KeyAlive(c, c.hot[j])
  {
    assert All(c)[j] == c.hot[j];
    KeyIsId(c, key, j);
    AliveAt(All(c), c.index, c.nextNode, j);
  }

  function MemSize(c: Cache): nat {
    Plus(c.coldUsage, c.hotUsage)
  }

  lemma NoTwins(c: Cache, i: nat, j: nat)
    requires i < j < |All(c)| && All(c)[i].key == All(c)[j].key
    ensures !Linked(c)
  {
  }

  // --- One store -------------------------------------------------------------------------------------

  ghost predicate StoreIntended(c: Cache, key: Key, value: Value, isExist: bool) {
    var o := EvictCold(PutInFront(c, key, value, isExist));
    && o.Done?
    && Valid(o.cache)
    && Abstract(o.cache) == Stored(Abstract(c), Entry(key, value, isExist))
  }

  lemma PutKeepsLinked(c: Cache, key: Key, value: Value, isExist: bool)
    requires Linked(c) && key !in c.index
    requires c.coldUsage + c.hotUsage + |key| + |value| < TWO_TO_THE_32
    ensures var c1 := PutInFront(c, key, value, isExist);
            Linked(c1) && Views(c1.cold) == [Entry(key, value, isExist)] + Views(c.cold)
  {
    hide Bijection, Views, Weight;
    var n := Node(c.nextNode, key, c.nextSlot, value, false, isExist);
    Inserted(All(c), c.index, c.nextNode, |c.hot|, n);
    assert All(c)[..|c.hot|] + [n] + All(c)[|c.hot|..] == c.hot + ([n] + c.cold) by {
      assert All(c)[..|c.hot|] == c.hot;
      assert All(c)[|c.hot|..] == c.cold;
    }
    ViewsOfConcat([n], c.cold);
    Single(n);
    WeightOfConcat([View(n)], Views(c.cold));
  }

  /** Two nodes share a key, or a node's key has left the map. */
  ghost predicate Broken(c: Cache) {
    || (exists i: nat :: i < |All(c)| && All(c)[i].key !in c.index)
    || (exists i: nat, j: nat :: i < j < |All(c)| && All(c)[i].key == All(c)[j].key)
  }

  lemma {:induction false} BrokenStays(c: Cache)
    requires Broken(c)
    ensures EvictCold(c).Done? ==> Broken(EvictCold(c).cache)
    decreases |c.cold|
  {
    if c.maxCold <= c.coldUsage && EvictOne(c).Done? {
      var c1 := EvictOne(c).cache;
      assert All(c1) == Front(All(c));
      assert Last(c.cold) == All(c)[|All(c)| - 1];
      if i: nat :| i < |All(c)| && All(c)[i].key !in c.index {
        assert All(c1)[i].key !in c1.index;
      } else {
        var i: nat, j: nat :| i < j < |All(c)| && All(c)[i].key == All(c)[j].key;
        assert All(c1)[i] == All(c)[i];
        assert j < |All(c1)| ==> All(c1)[j] == All(c)[j];
      }
      BrokenStays(c1);
    }
  }

  lemma BrokenIsNotValid(c: Cache)
    requires Broken(c)
    ensures !Valid(c)
  {
    if i: nat, j: nat :| i < j < |All(c)| && All(c)[i].key == All(c)[j].key {
      NoTwins(c, i, j);
    }
  }

  /**
   From a valid cache whose counters have room, storing a value or an erase mark is the intended operation, and
   leaves a valid cache, exactly when the key is not cached yet.
   */
  lemma StoreIsIntendedIffFresh(c: Cache, key: Key, value: Value, isExist: bool)
    requires Valid(c)
    requires c.coldUsage + c.hotUsage + |key| + |value| < TWO_TO_THE_32
    ensures StoreIntended(c, key, value, isExist) <==> key !in c.index
  {
    var c1 := PutInFront(c, key, value, isExist);
    if key !in c.index {
      PutKeepsLinked(c, key, value, isExist);
      EvictColdFits(c1);
    } else {
      StoredTwiceIsBroken(c, key, value, isExist);
      BrokenStays(c1);
      if EvictCold(c1).Done? {
        BrokenIsNotValid(EvictCold(c1).cache);
      }
    }
  }

  lemma StoredTwiceIsBroken(c: Cache, key: Key, value: Value, isExist: bool)
    requires Linked(c) && key in c.index
    ensures Broken(PutInFront(c, key, value, isExist))
  {
    var c1 := PutInFront(c, key, value, isExist);
    assert Holds(All(c), key);
    var p: nat :| p < |All(c)| && All(c)[p].key == key;
    assert All(c1)[|c.hot|].key == key;
    if p < |c.hot| {
      assert All(c1)[p].key == key;
    } else {
      assert All(c1)[p + 1] == All(c)[p];
    }
  }

  // --- Order -----------------------------------------------------------------------------------------

  function Order(q: TwoQueue): seq<Entry> {
    q.hot + q.cold
  }

  /** Settling only drops entries from the cold tail, keeps both queues under their caps, and never drops more than needed. */
  lemma SettledKeepsOrder(q: TwoQueue)
    requires 0 < q.maxHot && 0 < q.maxCold
    ensures Order(Settled(q)) <= Order(q)
    ensures LongestBelow(Settled(q).hot, q.hot, q.maxHot)
    ensures LongestBelow(Settled(q).cold, q.hot[|Settled(q).hot|..] + q.cold, q.maxCold)
  {
    FitIsLongest(q.hot, q.maxHot);
    var hot := Fit(q.hot, q.maxHot);
    FitIsLongest(q.hot[|hot|..] + q.cold, q.maxCold);
    hide Fit, Weight;
    CutTwice(q.hot, q.cold, hot, Settled(q).cold);
  }

  lemma CutTwice(hot: seq<Entry>, cold: seq<Entry>, kept: seq<Entry>, left: seq<Entry>)
    requires kept <= hot && left <= hot[|kept|..] + cold
    ensures kept + left <= hot + cold
  {
    var rest := hot[|kept|..] + cold;
    assert hot + cold == kept + rest;
    assert rest == left + rest[|left|..];
    assert kept + (left + rest[|left|..]) == (kept + left) + rest[|left|..];
  }

  /** Where the entry of a key is, in the order of both queues. */
  function Place(q: TwoQueue, key: Key): nat {
    if Position(q.hot, key) < |q.hot| then Position(q.hot, key) else |q.hot| + Position(q.cold, key)
  }

  /**
   A lookup that hits moves the entry to the very front and leaves the order of the others alone. After a cold hit
   each queue holds the longest prefix under its cap, what leaves the hot queue going to the cold front; after a
   hot hit nothing leaves.
   */
  lemma TouchedKeepsOrder(q: TwoQueue, key: Key)
    requires 0 < q.maxHot && 0 < q.maxCold
    requires Place(q, key) < |Order(q)|
    requires Position(q.hot, key) == |q.hot| || Position(q.cold, key) == |q.cold|
    ensures Order(q)[Place(q, key)].key == key
    ensures Order(Touched(q, key)) <= [Order(q)[Place(q, key)]] + Removed(Order(q), Place(q, key))
    ensures |q.hot| <= Place(q, key) ==>
              var i, t := Place(q, key) - |q.hot|, Touched(q, key);
              && LongestBelow(t.hot, [q.cold[i]] + q.hot, q.maxHot)
              && LongestBelow(t.cold, ([q.cold[i]] + q.hot)[|t.hot|..] + Removed(q.cold, i), q.maxCold)
    ensures Place(q, key) < |q.hot| ==>
              |Order(Touched(q, key))| == |Order(q)| && Weight(Touched(q, key).hot) == Weight(q.hot)
              && Touched(q, key).cold == q.cold
  {
    var i, j := Position(q.cold, key), Position(q.hot, key);
    hide Settled, Removed, Position, Weight, LongestBelow;
    if i < |q.cold| {
      SettledKeepsOrder(q.(hot := [q.cold[i]] + q.hot, cold := Removed(q.cold, i)));
      PromotedOrder(q, i);
      RemovedRight(q.hot, q.cold, i);
    } else {
      WeightMoved(q.hot, j);
      RemovedLeft(q.hot, q.cold, j);
      RemovedLength(q.hot, j);
      assert [q.hot[j]] + Removed(q.hot, j) + q.cold == [q.hot[j]] + (Removed(q.hot, j) + q.cold);
    }
  }

  lemma RemovedLength(es: seq<Entry>, i: nat)
    requires i < |es|
    ensures |Removed(es, i)| == |es| - 1
  {
  }

  /** A store puts the new entry in front of the cold queue, which keeps the longest prefix under its cap. */
  lemma StoredKeepsOrder(q: TwoQueue, e: Entry)
    requires 0 < q.maxCold
    ensures Stored(q, e).hot == q.hot
    ensures LongestBelow(Stored(q, e).cold, [e] + q.cold, q.maxCold)
    ensures Stored(q, e).cold != [] <==> |e.key| + |e.value| < q.maxCold
  {
    FitIsLongest([e] + q.cold, q.maxCold);
    var kept := Stored(q, e).cold;
    assert Weight([e]) == |e.key| + |e.value| by { assert [e][..0] == []; }
    assert ([e] + q.cold)[..1] == [e];
    if kept != [] {
      assert kept[..1] == [e];
      WeightOfPrefix(kept, 1);
    }
    hide Fit, Weight;
  }

  /** Moving an entry to the front changes no weight. */
  lemma WeightMoved(es: seq<Entry>, q: nat)
    requires q < |es|
    ensures Weight([es[q]] + Removed(es, q)) == Weight(es)
  {
    WeightWithout(es, q);
    WeightOfConcat([es[q]], Removed(es, q));
    assert [es[q]][..0] == [];
  }

  lemma PromotedOrder(q: TwoQueue, i: nat)
    requires 0 < q.maxHot && 0 < q.maxCold && i < |q.cold|
    ensures Order(Settled(q.(hot := [q.cold[i]] + q.hot, cold := Removed(q.cold, i)))) <= [q.cold[i]] + (q.hot + Removed(q.cold, i))
  {
    var q1 := q.(hot := [q.cold[i]] + q.hot, cold := Removed(q.cold, i));
    SettledKeepsOrder(q1);
    hide Settled, Removed;
    assert Order(q1) == [q.cold[i]] + (q.hot + Removed(q.cold, i));
  }

  lemma RemovedRight(a: seq<Entry>, b: seq<Entry>, i: nat)
    requires i < |b|
    ensures (a + b)[|a| + i] == b[i]
    ensures Removed(a + b, |a| + i) == a + Removed(b, i)
  {
    assert (a + b)[..|a| + i] == a + b[..i];
    assert (a + b)[|a| + i + 1..] == b[i + 1..];
  }

  lemma RemovedLeft(a: seq<Entry>, b: seq<Entry>, i: nat)
    requires i < |a|
    ensures Removed(a + b, i) == Removed(a, i) + b
  {
    assert (a + b)[..i] == a[..i];
    assert (a + b)[i + 1..] == a[i + 1..] + b;
  }

  // --- Whole runs ------------------------------------------------------------------------------------

  datatype Op = GetOp(key: Key) | SetOp(key: Key, value: Value) | EraseOp(key: Key)

  function Empty(maxCold: nat, maxHot: nat): Cache {
    Cache(maxCold, maxHot, 0, 0, [], [], map[], 0, 0)
  }

  function Apply(c: Cache, op: Op): Outcome {
    match op
    case GetOp(key) => var o := Get(c, key); if o.GetDone? then Done(o.cache) else Fault
    case SetOp(key, value) => Set(c, key, value)
    case EraseOp(key) => SetEraseRecord(c, key)
  }

  function Run(c: Cache, ops: seq<Op>): Outcome {
    if ops == [] then Done(c)
    else
      match Run(c, ops[..|ops| - 1])
      case Fault => Fault
      case Done(c1) => Apply(c1, ops[|ops| - 1])
  }

  /** What the last store of a key left: its value, or the erase mark. */
  function LastStored(ops: seq<Op>, key: Key): Hit {
    if ops == [] then Miss
    else
      match ops[|ops| - 1]
      case SetOp(k, value) => if k == key then Found(value) else LastStored(ops[..|ops| - 1], key)
      case EraseOp(k) => if k == key then Erased else LastStored(ops[..|ops| - 1], key)
      case GetOp(_) => LastStored(ops[..|ops| - 1], key)
  }

  // --- Outside clean runs ----------------------------------------------------------------------------

  function Repeat(key: Key, n: nat): seq<Op> {
    if n == 0 then [] else Repeat(key, n - 1) + [GetOp(key)]
  }

  /** The node of the key is the first of the hot queue and no node of the cold queue. */
  ghost predicate Leads(c: Cache, key: Key) {
    && c.hot != [] && key in c.index && c.hot[0].key == key && c.hot[0].isHot
    && c.index[key] == Slot(c.hot[0].slot, c.hot[0].id)
    && c.hotUsage < c.maxHot && c.hot[0].id < c.nextNode
    && (forall i: nat | i < |c.cold| :: c.cold[i].id < c.nextNode && c.cold[i].id != c.hot[0].id)
  }

  /** Once a key leads the hot queue, n lookups of it add n nodes to the queue and nothing to the counters. */
  lemma {:induction false} HotHitsPileUp(c: Cache, key: Key, n: nat)
    requires Leads(c, key)
    ensures Run(c, Repeat(key, n)).Done?
    ensures var c1 := Run(c, Repeat(key, n)).cache;
            && Leads(c1, key) && |c1.hot| == |c.hot| + n && MemSize(c1) == MemSize(c)
            && Get(c1, key).GetDone? && Get(c1, key).hit == Report(c.hot[0]) == Report(c1.hot[0])
  {
    if n == 0 {
      LeaderIsCopied(c, key);
    } else {
      HotHitsPileUp(c, key, n - 1);
      var ops := Repeat(key, n);
      assert ops[..|ops| - 1] == Repeat(key, n - 1) && ops[|ops| - 1] == GetOp(key);
      var c1 := Run(c, Repeat(key, n - 1)).cache;
      LeaderIsCopied(c1, key);
      LeaderIsCopied(Get(c1, key).cache, key);
    }
  }

  lemma LeaderIsCopied(c: Cache, key: Key)
    requires Leads(c, key)
    ensures Get(c, key).GetDone? && Get(c, key).hit == Report(c.hot[0])
    ensures var c1 := Get(c, key).cache;
            && Leads(c1, key) && |c1.hot| == |c.hot| + 1 && MemSize(c1) == MemSize(c)
            && c1.hot[0] == c.hot[0].(id := c.nextNode)
  {
    assert FindNode(c.hot, c.hot[0].id) == 0;
    assert FindNode(c.cold, c.hot[0].id) == |c.cold|;
    var c1 := Duplicate(c, key, 0);
    assert DemoteHot(c1, false) == Done(c1);
    assert c1.hot[0] == c.hot[0].(id := c.nextNode);
  }

  lemma RunOneMore(c: Cache, ops: seq<Op>, op: Op, before: Cache, after: Cache)
    requires Run(c, ops) == Done(before) && Apply(before, op) == Done(after)
    ensures Run(c, ops + [op]) == Done(after)
  {
    assert (ops + [op])[..|ops|] == ops;
    hide Apply;
  }

  function LossyRun(): seq<Op> {
    [] + [SetOp("a", "x")] + [GetOp("a")] + [GetOp("a")] + [SetOp("b", "y")] + [GetOp("b")]
  }

  /** Two lookups of one key and one of another, and the first key's value is gone: its next lookup finds "". */
  lemma HotHitLosesValue()
    ensures Run(Empty(10, 4), LossyRun()).Done?
    ensures Get(Run(Empty(10, 4), LossyRun()).cache, "a").GetDone?
    ensures Get(Run(Empty(10, 4), LossyRun()).cache, "a").hit == Found("")
    ensures LastStored(LossyRun(), "a") == Found("x")
  {
    LossyPromotion();
    LossyHotHit();
    LossyStore();
    LossyDemotion();
    LossyLookup();
    LossyLastStored();
    var c0 := Empty(10, 4);
    var first: seq<Op> := [] + [SetOp("a", "x")];
    assert Run(c0, []) == Done(c0);
    hide Run, Apply, Empty, AfterSet, AfterPromotion, AfterHotHit, AfterStore, AfterLoss;
    RunOneMore(c0, [], SetOp("a", "x"), c0, AfterSet());
    RunOneMore(c0, first, GetOp("a"), AfterSet(), AfterPromotion());
    RunOneMore(c0, first + [GetOp("a")], GetOp("a"), AfterPromotion(), AfterHotHit());
    RunOneMore(c0, first + [GetOp("a")] + [GetOp("a")], SetOp("b", "y"), AfterHotHit(), AfterStore());
    RunOneMore(c0, first + [GetOp("a")] + [GetOp("a")] + [SetOp("b", "y")], GetOp("b"), AfterStore(), AfterLoss());
  }

  function AfterSet(): Cache {
    Cache(10, 4, 2, 0, [], [Node(0, "a", 0, "x", false, true)], map["a" := Slot(0, 0)], 1, 1)
  }

  function AfterHotHit(): Cache {
    Cache(10, 4, 0, 2, [Node(2, "a", 0, "x", true, true), Node(1, "a", 0, "", true, true)], [],
          map["a" := Slot(0, 2)], 3, 1)
  }

  function AfterLoss(): Cache {
    Cache(10, 4, 1, 3, [Node(4, "b", 1, "y", true, true), Node(2, "a", 0, "x", true, true)],
          [Node(5, "a", 0, "", false, true)], map["a" := Slot(0, 5), "b" := Slot(1, 4)], 6, 2)
  }

  function AfterPromotion(): Cache {
    Cache(10, 4, 0, 2, [Node(1, "a", 0, "x", true, true)], [], map["a" := Slot(0, 1)], 2, 1)
  }

  lemma LossyPromotion()
    ensures Apply(Empty(10, 4), SetOp("a", "x")) == Done(AfterSet())
    ensures Apply(AfterSet(), GetOp("a")) == Done(AfterPromotion())
  {
    var c := AfterSet();
    assert Apply(Empty(10, 4), SetOp("a", "x")) == Done(c);
    assert FindNode(c.cold, 0) == 0;
    var c1 := Promote(c, "a", 0);
    assert c1 == AfterPromotion();
    assert DemoteHot(c1, true) == EvictCold(c1) == Done(c1);
    GetFromCold(c, "a", 0);
  }

  lemma LossyHotHit()
    ensures Apply(AfterPromotion(), GetOp("a")) == Done(AfterHotHit())
  {
    var c := AfterPromotion();
    assert FindNode(c.hot, 1) == 0;
    var c1 := Duplicate(c, "a", 0);
    assert c1 == AfterHotHit();
    assert DemoteHot(c1, false) == Done(c1);
  }

  function AfterStore(): Cache {
    Cache(10, 4, 2, 2, [Node(2, "a", 0, "x", true, true), Node(1, "a", 0, "", true, true)],
          [Node(3, "b", 1, "y", false, true)], map["a" := Slot(0, 2), "b" := Slot(1, 3)], 4, 2)
  }

  lemma LossyStore()
    ensures Apply(AfterHotHit(), SetOp("b", "y")) == Done(AfterStore())
  {
  }

  lemma LossyDemotion()
    ensures Apply(AfterStore(), GetOp("b")) == Done(AfterLoss())
  {
    var c := AfterStore();
    assert FindNode(c.cold, 3) == 0;
    var c1 := Promote(c, "b", 0);
    assert c1 == Cache(10, 4, 0, 4, [Node(4, "b", 1, "y", true, true)] + c.hot, [],
                       map["a" := Slot(0, 2), "b" := Slot(1, 4)], 5, 2);
    assert DemoteOne(c1, true) == Done(AfterLoss());
    assert DemoteHot(c1, true) == Done(AfterLoss());
    assert EvictCold(AfterLoss()) == Done(AfterLoss());
    GetFromCold(c, "b", 0);
  }

  lemma LossyLookup()
    ensures Get(AfterLoss(), "a").GetDone? && Get(AfterLoss(), "a").hit == Found("")
  {
    var c := AfterLoss();
    assert FindNode(c.cold, 5) == 0;
    var c1 := Promote(c, "a", 0);
    assert c1.hot == [Node(6, "a", 0, "", true, true), Node(4, "b", 1, "y", true, true), Node(2, "a", 0, "x", true, true)];
    assert c1.index == map["a" := Slot(0, 6), "b" := Slot(1, 4)];
    assert c1.hotUsage == 4 && c1.coldUsage == 0 && c1.cold == [];
    var c2 := DemoteOne(c1, true).cache;
    assert c2.hotUsage == 2 && c2.coldUsage == 2;
    assert DemoteHot(c1, true) == Done(c2);
    assert EvictCold(c2) == Done(c2);
    GetFromCold(c, "a", 0);
  }

  lemma LossyLastStored()
    ensures LastStored(LossyRun(), "a") == Found("x")
  {
    var ops := LossyRun();
    assert ops[..4][..3][..2][..1] == [SetOp("a", "x")];
    assert LastStored(ops, "a") == LastStored(ops[..4], "a");
    assert LastStored(ops[..4], "a") == LastStored(ops[..4][..3], "a");
    assert LastStored(ops[..4][..3], "a") == LastStored(ops[..4][..3][..2], "a");
  }

  /** Two stores of one key: the eviction of the older node takes the key out of the map, and the next one faults. */
  lemma StoredTwiceFaults()
    ensures var c1 := Set(Empty(5, 4), "a", "x");
            c1.Done? && var c2 := Set(c1.cache, "a", "y");
            c2.Done? && var c3 := Set(c2.cache, "b", "z");
            c3.Done? && Set(c3.cache, "c", "w") == Fault
  {
    var c1 := Cache(5, 4, 2, 0, [], [Node(0, "a", 0, "x", false, true)], map["a" := Slot(0, 0)], 1, 1);
    assert Set(Empty(5, 4), "a", "x") == Done(c1);
    var a := Node(1, "a", 0, "y", false, true);
    var c2 := Cache(5, 4, 4, 0, [], [a, Node(0, "a", 0, "x", false, true)], map["a" := Slot(0, 1)], 2, 1);
    assert Set(c1, "a", "y") == Done(c2);
    var b := Node(2, "b", 1, "z", false, true);
    var c3 := Cache(5, 4, 4, 0, [], [b, a], map["b" := Slot(1, 2)], 3, 2);
    assert EvictOne(PutInFront(c2, "b", "z", true)) == Done(c3);
    assert Set(c2, "b", "z") == Done(c3);
    assert EvictOne(PutInFront(c3, "c", "w", true)) == Fault;
  }
}
