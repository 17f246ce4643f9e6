/**
 Whole runs of the cache, hot hits included: as long as keys are stored fresh and no demotion takes an emptied node,
 the cache seen through its live nodes is the intended one step by step, and lookups report the last stored value.
 */
module LruRuns {

  import opened LruState
  import opened LruRefinement
  import opened LruCacheTheorems
  import opened LruLive
  import opened LruLiveSteps

  // --- The loops -------------------------------------------------------------------------------------

  lemma EvictLoosely(c: Cache)
    requires Loose(c) && c.cold != []
    ensures KeyAlive(c, Last(c.cold))
    ensures var c1 := EvictOne(c).cache;
            && Loose(c1) && c1.cold == Front(c.cold) && c1.hotUsage == c.hotUsage
            && LiveAbstract(c1) == LiveAbstract(c).(cold := Views(c.cold)[..|c.cold| - 1])
  {
    hide Woven, Views, Weight, LiveOf;
    EvictWoven(c.hot, c.cold, c.index, c.nextNode);
    ViewsOfFront(c.cold);
  }

  lemma {:induction false} EvictColdLoosely(c: Cache)
    requires Loose(c) && c.hotUsage < c.maxHot
    ensures EvictCold(c).Done?
    ensures LooselyValid(EvictCold(c).cache)
    ensures LiveAbstract(EvictCold(c).cache) == LiveAbstract(c).(cold := Fit(Views(c.cold), c.maxCold))
    decreases |c.cold|
  {
    hide Woven, Views, KeyAlive, LiveOf;
    if c.maxCold <= c.coldUsage {
      assert c.cold != [];
      EvictLoosely(c);
      EvictColdLoosely(EvictOne(c).cache);
    }
  }

  lemma DemoteLoosely(c: Cache)
    requires Loose(c) && c.hot != [] && IsLive(c.index, Last(c.hot))
    ensures KeyAlive(c, Last(c.hot))
    ensures var c1 := DemoteOne(c, true).cache;
            && Loose(c1) && c1.hot == Front(c.hot) && Live(c) == Live(c1) + [Last(c.hot)]
            && LiveAbstract(c1) == LiveAbstract(c).(hot := Views(Live(c))[..|Live(c)| - 1], cold := [View(Last(c.hot))] + Views(c.cold))
  {
    var last := Last(c.hot);
    var moved := last.(id := c.nextNode, isHot := false);
    var live1 := LiveOf(Front(c.hot), c.index[moved.key := Slot(moved.slot, c.nextNode)]);
    hide Woven, Views, Weight, LiveOf;
    DemoteWoven(c.hot, c.cold, c.index, c.nextNode, moved);
    LastOfLive(live1, last);
    ViewsOfConcat([moved], c.cold);
    Single(moved);
    WeightOfConcat([View(last)], Views(c.cold));
    NoWrap(c.hotUsage, c.coldUsage, Size(last));
    hide Plus, Minus, Loose, Size;
    Assemble(DemoteOne(c, true).cache, live1);
  }

  lemma NoWrap(a: nat, b: nat, size: nat)
    requires size <= a && a + b < TWO_TO_THE_32
    ensures Minus(a, size) == a - size && Plus(b, size) == b + size
  {
  }

  lemma Assemble(c: Cache, live: seq<Node>)
    requires Woven(c.hot, c.cold, c.index, c.nextNode) && live == Live(c)
    requires c.hotUsage == Weight(Views(live)) && c.coldUsage == Weight(Views(c.cold))
    requires c.hotUsage + c.coldUsage < TWO_TO_THE_32 && 0 < c.maxHot && 0 < c.maxCold
    ensures Loose(c) && LiveAbstract(c) == TwoQueue(c.maxCold, c.maxHot, Views(live), Views(c.cold))
  {
    hide Woven, Views, Weight, LiveOf;
  }

  lemma LastOfLive(live: seq<Node>, last: Node)
    ensures Views(live) == Views(live + [last])[..|live|]
    ensures Weight(Views(live + [last])) == Weight(Views(live)) + Size(last)
  {
    assert Front(live + [last]) == live && Last(live + [last]) == last;
    ViewsOfFront(live + [last]);
  }

  /** Every node that the demotion loop takes is live. */
  predicate TailsLive(c: Cache)
    decreases |c.hot|
  {
    c.hotUsage < c.maxHot ||
    (c.hot != [] && IsLive(c.index, Last(c.hot)) && DemoteOne(c, true).Done? && TailsLive(DemoteOne(c, true).cache))
  }

  lemma {:induction false} DemoteHotLoosely(c: Cache)
    requires Loose(c) && TailsLive(c)
    ensures DemoteHot(c, true).Done?
    ensures var c1, kept := DemoteHot(c, true).cache, Fit(Views(Live(c)), c.maxHot);
            && Loose(c1) && c1.hotUsage < c1.maxHot && kept <= Views(Live(c))
            && LiveAbstract(c1) == LiveAbstract(c).(hot := kept, cold := Views(Live(c))[|kept|..] + Views(c.cold))
    decreases |c.hot|
  {
    FitIsPrefix(Views(Live(c)), c.maxHot);
    hide Woven, Views, KeyAlive, LiveOf;
    if c.maxHot <= c.hotUsage {
      DemoteLoosely(c);
      var c1 := DemoteOne(c, true).cache;
      DemoteHotLoosely(c1);
      assert View(Last(c.hot)) == Views(Live(c))[|Live(c)| - 1] by { LastView(Live(c1), Last(c.hot)); }
      LastMoves(Views(Live(c)), Fit(Views(Live(c1)), c1.maxHot), Views(c.cold), View(Last(c.hot)));
    } else {
      assert Views(Live(c))[|Live(c)|..] + Views(c.cold) == Views(c.cold);
    }
  }

  lemma LastView(live: seq<Node>, last: Node)
    ensures Views(live + [last])[|live|] == View(last)
  {
  }

  lemma LoopsSettleLoosely(c: Cache)
    requires Loose(c) && TailsLive(c)
    ensures DemoteHot(c, true).Done? && EvictCold(DemoteHot(c, true).cache).Done?
    ensures var c1 := EvictCold(DemoteHot(c, true).cache).cache;
            LooselyValid(c1) && LiveAbstract(c1) == Settled(LiveAbstract(c))
  {
    hide Woven, Views, Weight, Fit, DemoteHot, EvictCold, LiveOf, TailsLive;
    FitIsPrefix(Views(Live(c)), c.maxHot);
    DemoteHotLoosely(c);
    EvictColdLoosely(DemoteHot(c, true).cache);
  }

  // --- Where a key is found --------------------------------------------------------------------------

  lemma MissedLoosely(c: Cache, key: Key)
    requires Loose(c) && key !in c.index
    ensures Position(Views(c.cold), key) == |c.cold| && Position(Views(Live(c)), key) == |Live(c)|
  {
    var live := Live(c) + c.cold;
    hide LiveOf, AllAnchored, Below, Distinct;
    forall k: nat | k < |c.cold| ensures Views(c.cold)[k].key != key {
      assert live[|Live(c)| + k] == c.cold[k];
    }
    forall k: nat | k < |Live(c)| ensures Views(Live(c))[k].key != key {
      assert live[k] == Live(c)[k];
    }
  }

  /** The place of the only element with a key. */
  lemma OnlyPosition(es: seq<Entry>, key: Key, p: nat)
    requires p < |es| && es[p].key == key
    requires forall i: nat | i < |es| && es[i].key == key :: i == p
    ensures Position(es, key) == p
  {
  }

  lemma KeyOnce(nodes: seq<Node>, index: map<Key, Slot>, next: nat, i: nat, j: nat)
    requires Bijection(nodes, index, next) && i < |nodes| && j < |nodes| && nodes[i].key == nodes[j].key
    ensures i == j
  {
  }

  lemma FoundInCold(c: Cache, key: Key, i: nat)
    requires Loose(c) && key in c.index && i == FindNode(c.cold, c.index[key].node) < |c.cold|
    ensures c.cold[i].key == key && !c.cold[i].isHot && Position(Views(c.cold), key) == i
    ensures FindNode(c.hot, c.index[key].node) == |c.hot|
  {
    var n := c.cold[i];
    assert (c.hot + c.cold)[|c.hot| + i] == n;
    IdHasKey(c.hot, c.cold, c.index, c.nextNode, key, n);
    forall j: nat | j < |c.hot| ensures c.hot[j].id != n.id {
      assert (c.hot + c.cold)[j] == c.hot[j];
    }
    forall k: nat | k < |c.cold| && Views(c.cold)[k].key == key ensures k == i {
      var live := Live(c) + c.cold;
      assert live[|Live(c)| + k] == c.cold[k] && live[|Live(c)| + i] == n;
      KeyOnce(live, c.index, c.nextNode, |Live(c)| + k, |Live(c)| + i);
    }
    OnlyPosition(Views(c.cold), key, i);
  }

  lemma FoundInHot(c: Cache, key: Key, j: nat)
    requires Loose(c) && key in c.index && j == FindNode(c.hot, c.index[key].node) < |c.hot|
    ensures c.hot[j].key == key && c.hot[j].isHot && IsLive(c.index, c.hot[j]) && KeyAlive(c, c.hot[j])
    ensures Position(Views(Live(c)), key) == LivePlace(c.hot, c.index, j)
    ensures Position(Views(c.cold), key) == |c.cold| && FindNode(c.cold, c.index[key].node) == |c.cold|
  {
    var n := c.hot[j];
    assert (c.hot + c.cold)[j] == n;
    IdHasKey(c.hot, c.cold, c.index, c.nextNode, key, n);
    assert Anchored(c.hot, c.index, j);
    var q, live := LivePlace(c.hot, c.index, j), Live(c) + c.cold;
    assert live[q] == n;
    forall k: nat | k < |live| && live[k].key == key ensures k == q {
      KeyOnce(live, c.index, c.nextNode, k, q);
    }
    hide Woven, LiveOf;
    OnlyInFront(Live(c), c.cold, key, q);
    OnlyPosition(Views(Live(c)), key, q);
    var i := FindNode(c.cold, c.index[key].node);
    if i < |c.cold| {
      FoundInCold(c, key, i);
    }
  }

  lemma OnlyInFront(a: seq<Node>, b: seq<Node>, key: Key, q: nat)
    requires q < |a| && a[q].key == key && forall k: nat | k < |a + b| && (a + b)[k].key == key :: k == q
    ensures Views(a)[q].key == key && forall k: nat | k < |a| && Views(a)[k].key == key :: k == q
    ensures Position(Views(b), key) == |b|
  {
    forall k: nat | k < |a| && Views(a)[k].key == key ensures k == q {
      assert (a + b)[k].key == key;
    }
    forall k: nat | k < |b| ensures Views(b)[k].key != key {
      assert (a + b)[|a| + k] == b[k];
    }
  }

  lemma FoundSomewhere(c: Cache, key: Key)
    requires Loose(c) && key in c.index
    ensures FindNode(c.hot, c.index[key].node) < |c.hot| || FindNode(c.cold, c.index[key].node) < |c.cold|
  {
    var n := LedTo(c.hot, c.cold, c.index, c.nextNode, key);
    if n in c.hot {
      var p: nat :| p < |c.hot| && c.hot[p] == n;
    } else {
      var p: nat :| p < |c.cold| && c.cold[p] == n;
    }
  }

  // --- Lookups ---------------------------------------------------------------------------------------

  /** What a caller can check before a lookup: no demotion it causes takes an emptied node. */
  predicate KeepsValues(c: Cache, key: Key) {
    key in c.index ==>
      var i := FindNode(c.cold, c.index[key].node);
      i < |c.cold| && c.cold[i].key in c.index ==> TailsLive(Promote(c, key, i))
  }

  ghost predicate GetAsIntended(c: Cache, key: Key) {
    var o := Get(c, key);
    && o.GetDone?
    && o.hit == Lookup(LiveAbstract(c), key)
    && LooselyValid(o.cache)
    && LiveAbstract(o.cache) == Touched(LiveAbstract(c), key)
  }

  lemma PromoteLoosely(c: Cache, key: Key, i: nat)
    requires Loose(c) && i < |c.cold| && c.cold[i].key == key
    ensures key in c.index && KeyAlive(c, c.cold[i])
    ensures var c1 := Promote(c, key, i);
            && Loose(c1)
            && LiveAbstract(c1) == LiveAbstract(c).(hot := [Views(c.cold)[i]] + Views(Live(c)), cold := Removed(Views(c.cold), i))
  {
    hide *;
    var n1 := c.cold[i].(id := c.nextNode, isHot := true);
    LooseParts(c);
    ColdNodeAlive(c, key, i);
    SameView(c.cold[i], n1);
    PromoteWoven(c.hot, c.cold, c.index, c.nextNode, i, n1);
    PromoteViews(Live(c), c.cold, i, n1);
    PromotedParts(c, key, i, n1);
    Assemble(Promote(c, key, i), [n1] + Live(c));
  }

  lemma LooseParts(c: Cache)
    requires Loose(c)
    ensures Woven(c.hot, c.cold, c.index, c.nextNode) && Live(c) == LiveOf(c.hot, c.index)
    ensures c.hotUsage == Weight(Views(Live(c))) && c.coldUsage == Weight(Views(c.cold))
    ensures c.hotUsage + c.coldUsage < TWO_TO_THE_32 && 0 < c.maxHot && 0 < c.maxCold
    ensures LiveAbstract(c) == TwoQueue(c.maxCold, c.maxHot, Views(Live(c)), Views(c.cold))
  {
    hide Woven, Weight, Views, LiveOf;
  }

  lemma SameView(n: Node, n1: Node)
    requires n1 == n.(id := n1.id, isHot := n1.isHot)
    ensures View(n1) == View(n)
  {
  }

  lemma ColdNodeAlive(c: Cache, key: Key, i: nat)
    requires Loose(c) && i < |c.cold| && c.cold[i].key == key
    ensures key in c.index && KeyAlive(c, c.cold[i])
  {
    PromoteWoven(c.hot, c.cold, c.index, c.nextNode, i, c.cold[i].(id := c.nextNode, isHot := true));
    hide Woven, Weight, Views, LiveOf;
  }

  lemma PromotedParts(c: Cache, key: Key, i: nat, n1: Node)
    requires i < |c.cold| && c.cold[i].key == key && key in c.index && c.index[key].slot == n1.slot
    requires n1 == c.cold[i].(id := c.nextNode, isHot := true)
    requires Size(c.cold[i]) <= c.coldUsage && c.coldUsage + c.hotUsage < TWO_TO_THE_32
    requires LiveOf([n1] + c.hot, c.index[n1.key := Slot(n1.slot, c.nextNode)]) == [n1] + LiveOf(c.hot, c.index)
    ensures var c1 := Promote(c, key, i);
            && Live(c1) == [n1] + Live(c)
            && c1.hot == [n1] + c.hot && c1.cold == c.cold[..i] + c.cold[i + 1..]
            && c1.index == c.index[n1.key := Slot(n1.slot, c.nextNode)] && c1.nextNode == c.nextNode + 1
            && c1.coldUsage == c.coldUsage - Size(c.cold[i]) && c1.hotUsage == c.hotUsage + Size(c.cold[i])
            && c1.maxCold == c.maxCold && c1.maxHot == c.maxHot
  {
    hide LiveOf;
    NoWrap(c.coldUsage, c.hotUsage, Size(c.cold[i]));
    hide Plus, Minus;
  }

  lemma ColdHitLoosely(c: Cache, key: Key, i: nat)
    requires LooselyValid(c) && key in c.index && i == FindNode(c.cold, c.index[key].node) < |c.cold|
    requires KeepsValues(c, key)
    ensures GetAsIntended(c, key)
  {
    FoundInCold(c, key, i);
    PromoteLoosely(c, key, i);
    LoopsSettleLoosely(Promote(c, key, i));
    GetFromCold(c, key, i);
    assert Report(c.cold[i]) == Answer(Views(c.cold)[i]);
    hide Woven, KeyAlive, FindNode, Position, Views, Weight, Fit, DemoteHot, EvictCold, Removed, Get, Promote, Settled, LiveOf;
  }

  lemma DuplicateLoosely(c: Cache, key: Key, j: nat)
    requires Loose(c) && key in c.index && j < |c.hot| && c.hot[j].key == key && IsLive(c.index, c.hot[j])
    requires KeyAlive(c, c.hot[j])
    ensures var c1, q := Duplicate(c, key, j), LivePlace(c.hot, c.index, j);
            && Loose(c1)
            && LiveAbstract(c1) == LiveAbstract(c).(hot := [Views(Live(c))[q]] + Removed(Views(Live(c)), q))
  {
    var n1, gone := c.hot[j].(id := c.nextNode, isHot := true), c.hot[j].(value := "");
    var q := LivePlace(c.hot, c.index, j);
    assert c.hot[j].(value := "", slot := c.index[key].slot) == gone;
    hide Woven, Weight, LiveOf, LivePlace;
    DuplicateWoven(c.hot, c.cold, c.index, c.nextNode, j, n1, gone);
    MovedViews(Live(c), q, n1);
  }

  lemma MovedViews(live: seq<Node>, q: nat, n1: Node)
    requires q < |live| && View(n1) == View(live[q])
    ensures Views([n1] + Removed(live, q)) == [Views(live)[q]] + Removed(Views(live), q)
    ensures Weight(Views([n1] + Removed(live, q))) == Weight(Views(live))
  {
    assert Views([n1] + Removed(live, q)) == [Views(live)[q]] + Removed(Views(live), q);
    hide Views;
    WeightMoved(Views(live), q);
  }

  lemma HotHitLoosely(c: Cache, key: Key, j: nat)
    requires LooselyValid(c) && key in c.index && j == FindNode(c.hot, c.index[key].node) < |c.hot|
    ensures GetAsIntended(c, key)
  {
    FoundInHot(c, key, j);
    DuplicateLoosely(c, key, j);
    var c1 := Duplicate(c, key, j);
    assert DemoteHot(c1, false) == Done(c1);
    assert Report(c.hot[j]) == Answer(Views(Live(c))[LivePlace(c.hot, c.index, j)]);
    hide Woven, FindNode, Position, Views, Weight, Removed, Duplicate, LiveOf, LivePlace;
  }

  // --- Demotions that take an emptied node -----------------------------------------------------------

  /** A demotion that takes an emptied node makes its key's map entry lead to that node, whatever was stored. */
  lemma EmptiedTailLosesValue(c: Cache)
    requires Loose(c) && c.hot != [] && !IsLive(c.index, Last(c.hot))
    ensures DemoteOne(c, true).Done?
    ensures var c1, key := DemoteOne(c, true).cache, Last(c.hot).key;
            && key in c1.index && FindNode(c1.cold, c1.index[key].node) == 0
            && c1.cold[0].key == key && c1.cold[0].value == ""
            && Torn(c1)
  {
    var p := |c.hot| - 1;
    assert Anchored(c.hot, c.index, p);
    var j: nat :| j < p && c.hot[j].id == c.index[c.hot[p].key].node;
    assert (c.hot + c.cold)[j] == c.hot[j];
    IdHasKey(c.hot, c.cold, c.index, c.nextNode, c.hot[p].key, c.hot[j]);
    hide Woven;
    var c1 := DemoteOne(c, true).cache;
    assert All(c1)[j] == c.hot[j] && All(c1)[p] == c1.cold[0] && p == |c1.hot|;
  }

  /** A cold node shares its key with a node before it, or a node's key has left the map. */
  ghost predicate Torn(c: Cache) {
    || (exists i: nat :: i < |All(c)| && All(c)[i].key !in c.index)
    || (exists i: nat, j: nat :: i < j < |All(c)| && |c.hot| <= j && All(c)[i].key == All(c)[j].key)
  }

  lemma TornIsNotLoose(c: Cache)
    requires Loose(c)
    ensures !Torn(c)
  {
    hide Bijection, LiveOf, Below;
    forall i: nat | i < |All(c)| ensures All(c)[i].key in c.index {
      if i < |c.hot| {
        assert Anchored(c.hot, c.index, i);
      } else {
        ColdKeyNotHot(c.hot, c.cold, c.index, c.nextNode, i - |c.hot|);
      }
    }
    forall i: nat, j: nat | i < j < |All(c)| && |c.hot| <= j ensures All(c)[i].key != All(c)[j].key {
      ColdKeyNotHot(c.hot, c.cold, c.index, c.nextNode, j - |c.hot|);
      if i < |c.hot| {
        assert c.hot[i] in c.hot;
      } else {
        ColdKeysDiffer(Live(c), c.cold, c.index, c.nextNode, i - |c.hot|, j - |c.hot|);
      }
    }
  }

  lemma ColdKeysDiffer(live: seq<Node>, cold: seq<Node>, index: map<Key, Slot>, next: nat, i: nat, j: nat)
    requires Bijection(live + cold, index, next) && i < j < |cold|
    ensures cold[i].key != cold[j].key
  {
    var nodes := live + cold;
    assert nodes[|live| + i] == cold[i] && nodes[|live| + j] == cold[j];
    AliveAt(nodes, index, next, |live| + i);
    AliveAt(nodes, index, next, |live| + j);
  }

  lemma {:induction false} TornThroughEviction(c: Cache)
    requires Torn(c)
    ensures EvictCold(c).Done? ==> Torn(EvictCold(c).cache)
    decreases |c.cold|
  {
    if c.maxCold <= c.coldUsage && EvictOne(c).Done? {
      var c1 := EvictOne(c).cache;
      assert All(c1) == Front(All(c));
      assert Last(c.cold) == All(c)[|All(c)| - 1];
      if i: nat :| i < |All(c)| && All(c)[i].key !in c.index {
        assert All(c1)[i].key !in c1.index;
      } else {
        var i: nat, j: nat :| i < j < |All(c)| && |c.hot| <= j && All(c)[i].key == All(c)[j].key;
        assert All(c1)[i] == All(c)[i];
        assert j < |All(c1)| ==> All(c1)[j] == All(c)[j];
      }
      TornThroughEviction(c1);
    }
  }

  lemma {:induction false} TornThroughDemotion(c: Cache)
    requires Torn(c)
    ensures DemoteHot(c, true).Done? ==> Torn(DemoteHot(c, true).cache)
    decreases |c.hot|
  {
    if c.maxHot <= c.hotUsage && DemoteOne(c, true).Done? {
      var c1, last := DemoteOne(c, true).cache, Last(c.hot);
      assert All(c1) == All(c)[|c.hot| - 1 := last.(id := c.nextNode, isHot := false)];
      if i: nat :| i < |All(c)| && All(c)[i].key !in c.index {
        assert All(c1)[i].key !in c1.index;
      } else {
        var i: nat, j: nat :| i < j < |All(c)| && |c.hot| <= j && All(c)[i].key == All(c)[j].key;
        assert All(c1)[i].key == All(c1)[j].key;
      }
      TornThroughDemotion(c1);
    }
  }

  lemma {:induction false} DemotionTears(c: Cache)
    requires Loose(c) && !TailsLive(c)
    ensures DemoteHot(c, true).Done? ==> Torn(DemoteHot(c, true).cache)
    decreases |c.hot|
  {
    hide Woven, Views, KeyAlive, LiveOf, Torn;
    NothingWeighsNothing(c);
    if IsLive(c.index, Last(c.hot)) {
      DemoteLoosely(c);
      DemotionTears(DemoteOne(c, true).cache);
    } else {
      EmptiedTailLosesValue(c);
      TornThroughDemotion(DemoteOne(c, true).cache);
    }
  }

  lemma NothingWeighsNothing(c: Cache)
    requires Loose(c) && !TailsLive(c)
    ensures c.maxHot <= c.hotUsage && c.hot != []
  {
  }

  lemma UnclearDemotionIsNotIntended(c: Cache, key: Key)
    requires LooselyValid(c) && !KeepsValues(c, key)
    ensures !GetAsIntended(c, key)
  {
    var i := FindNode(c.cold, c.index[key].node);
    FoundInCold(c, key, i);
    PromoteLoosely(c, key, i);
    var c1 := Promote(c, key, i);
    DemotionTears(c1);
    hide Loose, Torn, DemoteHot, EvictCold, Promote, FindNode;
    if DemoteHot(c1, true).Done? && EvictCold(DemoteHot(c1, true).cache).Done? {
      TornThroughEviction(DemoteHot(c1, true).cache);
      GetFromCold(c, key, i);
      if Loose(Get(c, key).cache) {
        TornIsNotLoose(Get(c, key).cache);
      }
    }
  }

  /**
   From a loosely valid cache a lookup, a hot hit included, reports right, is the intended one on the live nodes and
   leaves a loosely valid cache exactly if no demotion it causes takes an emptied node.
   */
  lemma LookupIsIntendedIff(c: Cache, key: Key)
    requires LooselyValid(c)
    ensures GetAsIntended(c, key) <==> KeepsValues(c, key)
  {
    if !KeepsValues(c, key) {
      UnclearDemotionIsNotIntended(c, key);
    } else if key !in c.index {
      MissedLoosely(c, key);
    } else {
      FoundSomewhere(c, key);
      hide Loose, GetAsIntended, KeepsValues;
      var i, j := FindNode(c.cold, c.index[key].node), FindNode(c.hot, c.index[key].node);
      if i < |c.cold| {
        ColdHitLoosely(c, key, i);
      } else {
        HotHitLoosely(c, key, j);
      }
    }
  }

  // --- Stores ----------------------------------------------------------------------------------------

  ghost predicate StoreAsIntended(c: Cache, key: Key, value: Value, isExist: bool) {
    var o := EvictCold(PutInFront(c, key, value, isExist));
    && o.Done? && LooselyValid(o.cache)
    && LiveAbstract(o.cache) == Stored(LiveAbstract(c), Entry(key, value, isExist))
  }

  lemma StoredTwiceIsTorn(c: Cache, key: Key, value: Value, isExist: bool)
    requires Loose(c) && key in c.index
    ensures Torn(PutInFront(c, key, value, isExist))
  {
    var n := LedTo(c.hot, c.cold, c.index, c.nextNode, key);
    hide Loose, Woven;
    var p: nat :| p < |c.hot + c.cold| && (c.hot + c.cold)[p] == n;
    PutTears(c, key, value, isExist, p);
  }

  lemma PutTears(c: Cache, key: Key, value: Value, isExist: bool, p: nat)
    requires p < |c.hot + c.cold| && (c.hot + c.cold)[p].key == key
    ensures Torn(PutInFront(c, key, value, isExist))
  {
    var c1 := PutInFront(c, key, value, isExist);
    assert All(c1) == c.hot + ([c1.cold[0]] + c.cold);
    assert All(c1)[|c.hot|].key == key;
    if p < |c.hot| {
      assert All(c1)[p].key == key;
    } else {
      assert All(c1)[p + 1].key == key;
    }
  }

  /**
   From a loosely valid cache whose counters have room, storing a value or an erase mark is the intended operation and
   leaves a loosely valid cache exactly if the key is not cached yet.
   */
  lemma StoreIsIntendedIff(c: Cache, key: Key, value: Value, isExist: bool)
    requires LooselyValid(c)
    requires c.coldUsage + c.hotUsage + |key| + |value| < TWO_TO_THE_32
    ensures StoreAsIntended(c, key, value, isExist) <==> key !in c.index
  {
    if key !in c.index {
      StoreLoosely(c, key, value, isExist);
    } else {
      var c1 := PutInFront(c, key, value, isExist);
      StoredTwiceIsTorn(c, key, value, isExist);
      TornThroughEviction(c1);
      hide Loose, Torn, EvictCold;
      if EvictCold(c1).Done? && Loose(EvictCold(c1).cache) {
        TornIsNotLoose(EvictCold(c1).cache);
      }
    }
  }

  lemma StoreLoosely(c: Cache, key: Key, value: Value, isExist: bool)
    requires LooselyValid(c) && key !in c.index
    requires c.coldUsage + c.hotUsage + |key| + |value| < TWO_TO_THE_32
    ensures StoreAsIntended(c, key, value, isExist)
  {
    var n := Node(c.nextNode, key, c.nextSlot, value, false, isExist);
    hide Woven, Views, Weight, LiveOf, EvictCold;
    PutWoven(c.hot, c.cold, c.index, c.nextNode, n);
    ViewsOfConcat([n], c.cold);
    Single(n);
    WeightOfConcat([View(n)], Views(c.cold));
    EvictColdLoosely(PutInFront(c, key, value, isExist));
  }

  // --- Runs ------------------------------------------------------------------------------------------

  /** What a caller can check before an operation: no emptied node is demoted, no cached key is stored, the counters have room. */
  predicate Clean(c: Cache, op: Op) {
    match op
    case GetOp(key) => KeepsValues(c, key)
    case SetOp(key, value) => key !in c.index && c.coldUsage + c.hotUsage + |key| + |value| < 0x1_0000_0000
    case EraseOp(key) => key !in c.index && c.coldUsage + c.hotUsage + |key| < 0x1_0000_0000
  }

  predicate CleanRun(c: Cache, ops: seq<Op>) {
    ops == [] ||
    (var front := ops[..|ops| - 1];
     CleanRun(c, front) && (Run(c, front).Done? ==> Clean(Run(c, front).cache, ops[|ops| - 1])))
  }

  function IntendedApply(q: TwoQueue, op: Op): TwoQueue {
    match op
    case GetOp(key) => Touched(q, key)
    case SetOp(key, value) => Stored(q, Entry(key, value, true))
    case EraseOp(key) => Stored(q, Entry(key, "", false))
  }

  function IntendedRun(q: TwoQueue, ops: seq<Op>): TwoQueue {
    if ops == [] then q else IntendedApply(IntendedRun(q, ops[..|ops| - 1]), ops[|ops| - 1])
  }

  lemma StepIsIntended(c: Cache, op: Op)
    requires LooselyValid(c) && Clean(c, op)
    ensures Apply(c, op).Done? && LooselyValid(Apply(c, op).cache)
    ensures LiveAbstract(Apply(c, op).cache) == IntendedApply(LiveAbstract(c), op)
  {
    hide LooselyValid, LiveAbstract, KeepsValues;
    match op
    case GetOp(key) => LookupIsIntendedIff(c, key);
    case SetOp(key, value) => StoreIsIntendedIff(c, key, value, true);
    case EraseOp(key) => StoreIsIntendedIff(c, key, "", false);
  }

  /** Every clean run ends, is the intended run step by step on the live nodes, and leaves a loosely valid cache. */
  lemma {:induction false} CleanRunIsIntended(c: Cache, ops: seq<Op>)
    requires LooselyValid(c) && CleanRun(c, ops)
    ensures Run(c, ops).Done? && LooselyValid(Run(c, ops).cache)
    ensures LiveAbstract(Run(c, ops).cache) == IntendedRun(LiveAbstract(c), ops)
  {
    hide LooselyValid, LiveAbstract, Clean, Apply, IntendedApply;
    if ops != [] {
      CleanRunIsIntended(c, ops[..|ops| - 1]);
      StepIsIntended(Run(c, ops[..|ops| - 1]).cache, ops[|ops| - 1]);
    }
  }

  // --- The intended cache over runs ------------------------------------------------------------------

  predicate InQueues(q: TwoQueue, key: Key) {
    exists e :: e in Order(q) && e.key == key
  }

  /** Stores are of keys that are in neither queue; lookups are free, hot hits included. */
  predicate FreshRun(q: TwoQueue, ops: seq<Op>) {
    ops == [] ||
    (var front, op := ops[..|ops| - 1], ops[|ops| - 1];
     FreshRun(q, front) && (op.GetOp? || !InQueues(IntendedRun(q, front), op.key)))
  }

  ghost predicate KeysOnce(es: seq<Entry>) {
    forall i: nat, j: nat | i < |es| && j < |es| && es[i].key == es[j].key :: i == j
  }

  ghost predicate Current(q: TwoQueue, ops: seq<Op>) {
    forall e | e in Order(q) :: Answer(e) == LastStored(ops, e.key)
  }

  /** What the intended cache keeps: each key once, both queues below their caps, every entry current. */
  ghost predicate IntendedInv(q: TwoQueue, ops: seq<Op>) {
    && 0 < q.maxHot && 0 < q.maxCold
    && KeysOnce(Order(q))
    && Weight(q.hot) < q.maxHot && Weight(q.cold) < q.maxCold
    && Current(q, ops)
  }

  lemma OnceInOne(q: TwoQueue, key: Key)
    requires KeysOnce(Order(q))
    ensures Position(q.hot, key) == |q.hot| || Position(q.cold, key) == |q.cold|
  {
    if k: nat :| k < |q.hot| && q.hot[k].key == key {
      forall i: nat | i < |q.cold| ensures q.cold[i].key != key {
        assert Order(q)[k] == q.hot[k] && Order(q)[|q.hot| + i] == q.cold[i];
      }
    }
  }

  lemma MovedOnce(es: seq<Entry>, p: nat, es1: seq<Entry>)
    requires KeysOnce(es) && p < |es| && es1 <= [es[p]] + Removed(es, p)
    ensures KeysOnce(es1) && forall e | e in es1 :: e in es
  {
    var moved := [es[p]] + Removed(es, p);
    assert forall j: nat | j < |moved| :: moved[j] == es[Source(p, j)];
    assert forall j: nat | j < |es1| :: es1[j] == moved[j];
  }

  lemma TouchedKeeps(q: TwoQueue, key: Key, ops: seq<Op>)
    requires IntendedInv(q, ops)
    ensures IntendedInv(Touched(q, key), ops)
  {
    var i, j := Position(q.cold, key), Position(q.hot, key);
    OnceInOne(q, key);
    hide Weight, Position, Settled, LastStored, Removed, LongestBelow, KeysOnce;
    if i < |q.cold| || j < |q.hot| {
      TouchedKeepsOrder(q, key);
      MovedOnce(Order(q), Place(q, key), Order(Touched(q, key)));
      TouchedBelow(q, key);
      hide Place, Order, Touched;
    }
  }

  /** A hit leaves both queues below their caps. */
  lemma TouchedBelow(q: TwoQueue, key: Key)
    requires 0 < q.maxHot && 0 < q.maxCold
    requires Place(q, key) < |Order(q)|
    requires Position(q.hot, key) == |q.hot| || Position(q.cold, key) == |q.cold|
    requires Weight(q.hot) < q.maxHot && Weight(q.cold) < q.maxCold
    ensures var t := Touched(q, key);
            Weight(t.hot) < t.maxHot == q.maxHot && Weight(t.cold) < t.maxCold == q.maxCold
  {
    TouchedKeepsOrder(q, key);
    hide Weight, Position, Settled, Removed;
  }

  lemma StoredKeeps(q: TwoQueue, e: Entry, ops: seq<Op>, op: Op)
    requires IntendedInv(q, ops) && !InQueues(q, e.key) && !op.GetOp? && op.key == e.key
    requires e == if op.SetOp? then Entry(op.key, op.value, true) else Entry(op.key, "", false)
    ensures IntendedInv(Stored(q, e), ops + [op])
  {
    FitIsPrefix([e] + q.cold, q.maxCold);
    var q1 := Stored(q, e);
    assert (ops + [op])[..|ops|] == ops;
    hide Weight, Fit;
    StoredOnce(q, e, q1.cold);
    forall d | d in Order(q1) ensures Answer(d) == LastStored(ops + [op], d.key) {
      assert d == e || d in Order(q);
      assert d != e ==> d.key != e.key;
    }
  }

  lemma StoredOnce(q: TwoQueue, e: Entry, cold: seq<Entry>)
    requires KeysOnce(Order(q)) && !InQueues(q, e.key) && cold <= [e] + q.cold
    ensures KeysOnce(q.hot + cold) && forall d | d in q.hot + cold :: d == e || d in Order(q)
  {
    var es := q.hot + cold;
    forall d | d in Order(q) ensures d.key != e.key {
    }
    forall k: nat | k < |es|
      ensures es[k] == if k < |q.hot| then Order(q)[k] else if k == |q.hot| then e else Order(q)[k - 1]
    {
      assert k >= |q.hot| ==> cold[k - |q.hot|] == ([e] + q.cold)[k - |q.hot|];
    }
    assert forall k: nat | k < |Order(q)| :: Order(q)[k] in Order(q);
    hide Order, InQueues;
    forall i: nat, j: nat | i < |es| && j < |es| && es[i].key == es[j].key ensures i == j {
      if i != |q.hot| && j != |q.hot| {
        var a, b := if i < |q.hot| then i else i - 1, if j < |q.hot| then j else j - 1;
        assert Order(q)[a].key == Order(q)[b].key;
      }
    }
  }

  /**
   Over every run of the intended cache with fresh stores and any lookups, each key is in the queues once, both queues
   stay below their caps, and every entry is what the last store of its key left.
   */
  lemma {:induction false} IntendedRunKeeps(maxCold: nat, maxHot: nat, ops: seq<Op>)
    requires 0 < maxCold && 0 < maxHot && FreshRun(TwoQueue(maxCold, maxHot, [], []), ops)
    ensures IntendedInv(IntendedRun(TwoQueue(maxCold, maxHot, [], []), ops), ops)
  {
    if ops != [] {
      var front, op := ops[..|ops| - 1], ops[|ops| - 1];
      var q := IntendedRun(TwoQueue(maxCold, maxHot, [], []), front);
      IntendedRunKeeps(maxCold, maxHot, front);
      assert ops == front + [op];
      match op {
        case GetOp(key) =>
          TouchedKeeps(q, key, front);
          LookupStoresNothing(front, op);
        case SetOp(key, value) => StoredKeeps(q, Entry(key, value, true), front, op);
        case EraseOp(key) => StoredKeeps(q, Entry(key, "", false), front, op);
      }
    }
  }

  lemma LookupStoresNothing(ops: seq<Op>, op: Op)
    requires op.GetOp?
    ensures forall key :: LastStored(ops + [op], key) == LastStored(ops, key)
  {
    assert (ops + [op])[..|ops|] == ops;
  }

  /** A lookup in the intended cache reports what the last store of its key left exactly if the key is in a queue. */
  lemma IntendedHitIsLastStored(maxCold: nat, maxHot: nat, ops: seq<Op>, key: Key)
    requires 0 < maxCold && 0 < maxHot && FreshRun(TwoQueue(maxCold, maxHot, [], []), ops)
    ensures var q := IntendedRun(TwoQueue(maxCold, maxHot, [], []), ops);
            Lookup(q, key) == if InQueues(q, key) then LastStored(ops, key) else Miss
  {
    IntendedRunKeeps(maxCold, maxHot, ops);
    var q := IntendedRun(TwoQueue(maxCold, maxHot, [], []), ops);
    var i, j := Position(q.cold, key), Position(q.hot, key);
    assert i < |q.cold| ==> q.cold[i] in Order(q);
    assert j < |q.hot| ==> q.hot[j] in Order(q);
    hide LastStored, Position, IntendedRun;
    if i == |q.cold| && j == |q.hot| {
      NowhereMeansOutside(q, key);
    }
  }

  /** Keys and values both weigh, and a queue that reaches its cap is over it: three bytes and one do not fit four. */
  lemma KeysAndValuesWeigh()
    ensures var ops := [SetOp("a", "bc"), SetOp("d", "")];
            && IntendedRun(TwoQueue(4, 4, [], []), ops) == TwoQueue(4, 4, [], [Entry("d", "", true)])
            && IntendedRun(TwoQueue(5, 4, [], []), ops) == TwoQueue(5, 4, [], [Entry("d", "", true), Entry("a", "bc", true)])
  {
    var a, d := Entry("a", "bc", true), Entry("d", "", true);
    var ops := [SetOp("a", "bc"), SetOp("d", "")];
    TwoWeights(a, d);
    assert ops[..1] == [SetOp("a", "bc")] && ops[..1][..0] == [];
    assert [a] + [] == [a] && [d] + [a] == [d, a] && [d, a][..1] == [d];
    hide Weight, LastStored;
    assert Fit([d], 4) == [d];
    assert Fit([d, a], 4) == Fit([d, a][..1], 4) && Fit([d, a], 5) == [d, a];
    assert IntendedRun(TwoQueue(4, 4, [], []), ops[..1]) == TwoQueue(4, 4, [], [a]);
    assert IntendedRun(TwoQueue(5, 4, [], []), ops[..1]) == TwoQueue(5, 4, [], [a]);
  }

  lemma TwoWeights(a: Entry, d: Entry)
    requires a == Entry("a", "bc", true) && d == Entry("d", "", true)
    ensures Weight([a]) == 3 && Weight([d]) == 1 && Weight([d, a]) == 4
  {
    assert [d, a][..1] == [d] && [d][..0] == [] && [a][..0] == [];
  }

  // --- What lookups report ---------------------------------------------------------------------------

  lemma EmptyIsValid(maxCold: nat, maxHot: nat)
    requires 0 < maxCold && 0 < maxHot
    ensures LooselyValid(Empty(maxCold, maxHot))
    ensures LiveAbstract(Empty(maxCold, maxHot)) == TwoQueue(maxCold, maxHot, [], [])
  {
  }

  lemma {:induction false} CleanIsFresh(maxCold: nat, maxHot: nat, ops: seq<Op>)
    requires 0 < maxCold && 0 < maxHot && CleanRun(Empty(maxCold, maxHot), ops)
    ensures FreshRun(TwoQueue(maxCold, maxHot, [], []), ops)
  {
    if ops != [] {
      var front, op := ops[..|ops| - 1], ops[|ops| - 1];
      CleanIsFresh(maxCold, maxHot, front);
      EmptyIsValid(maxCold, maxHot);
      CleanRunIsIntended(Empty(maxCold, maxHot), front);
      var c := Run(Empty(maxCold, maxHot), front).cache;
      hide LooselyValid, LiveAbstract, KeepsValues, InQueues, Run, IntendedRun;
      if !op.GetOp? {
        NotInQueues(c, op.key);
      }
    }
  }

  lemma NotInQueues(c: Cache, key: Key)
    requires LooselyValid(c) && key !in c.index
    ensures !InQueues(LiveAbstract(c), key)
  {
    MissedLoosely(c, key);
    NowhereMeansOutside(LiveAbstract(c), key);
  }

  lemma NowhereMeansOutside(q: TwoQueue, key: Key)
    requires Position(q.hot, key) == |q.hot| && Position(q.cold, key) == |q.cold|
    ensures !InQueues(q, key)
  {
    forall e | e in Order(q) ensures e.key != key {
      var p: nat :| p < |Order(q)| && Order(q)[p] == e;
      assert e == if p < |q.hot| then q.hot[p] else q.cold[p - |q.hot|];
    }
  }

  /**
   After any clean run, hot hits included, a lookup that a clean run can go on with reports what the last store of its
   key left exactly if the intended run has the key in a queue; else it misses.
   */
  lemma HitIsLastStored(maxCold: nat, maxHot: nat, ops: seq<Op>, key: Key)
    requires 0 < maxCold && 0 < maxHot && CleanRun(Empty(maxCold, maxHot), ops)
    requires Run(Empty(maxCold, maxHot), ops).Done? ==> KeepsValues(Run(Empty(maxCold, maxHot), ops).cache, key)
    ensures Run(Empty(maxCold, maxHot), ops).Done?
    ensures var o := Get(Run(Empty(maxCold, maxHot), ops).cache, key);
            var q := IntendedRun(TwoQueue(maxCold, maxHot, [], []), ops);
            o.GetDone? && o.hit == if InQueues(q, key) then LastStored(ops, key) else Miss
  {
    EmptyIsValid(maxCold, maxHot);
    CleanRunIsIntended(Empty(maxCold, maxHot), ops);
    CleanIsFresh(maxCold, maxHot, ops);
    IntendedHitIsLastStored(maxCold, maxHot, ops, key);
    hide LooselyValid, LiveAbstract, KeepsValues, Run, IntendedRun, Lookup, LastStored, InQueues;
    LookupIsIntendedIff(Run(Empty(maxCold, maxHot), ops).cache, key);
  }
}
