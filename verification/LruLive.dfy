/**
 The cache with the nodes that hot hits leave behind. A node is live when its key's map entry leads to it; the
 others lie emptied in the hot queue, each behind the live node of its key. Seen through its live nodes alone, the
 cache is the intended one, hot hits included, as long as no demotion takes an emptied node.
 */
module LruLive {

  import opened LruState
  import opened LruRefinement
  import opened LruCacheTheorems

  predicate IsLive(index: map<Key, Slot>, n: Node) {
    n.key in index && index[n.key].node == n.id
  }

  function One(index: map<Key, Slot>, n: Node): seq<Node> {
    if IsLive(index, n) then [n] else []
  }

  /** The live nodes of a list, in order. */
  function LiveOf(nodes: seq<Node>, index: map<Key, Slot>): (live: seq<Node>)
    ensures |live| <= |nodes|
    ensures forall n | n in live :: n in nodes && IsLive(index, n)
  {
    if nodes == [] then [] else LiveOf(Front(nodes), index) + One(index, Last(nodes))
  }

  /** A node left behind is empty, and the live node of its key is before it. */
  ghost predicate Anchored(hot: seq<Node>, index: map<Key, Slot>, p: nat)
    requires p < |hot|
  {
    var n := hot[p];
    && n.isHot && n.key in index && index[n.key].slot == n.slot
    && (IsLive(index, n) || (n.value == "" && exists j: nat :: j < p && hot[j].id == index[n.key].node))
  }

  ghost predicate AllAnchored(hot: seq<Node>, index: map<Key, Slot>) {
    forall p: nat | p < |hot| :: Anchored(hot, index, p)
  }

  ghost predicate Below(nodes: seq<Node>, next: nat) {
    forall p: nat | p < |nodes| :: nodes[p].id < next
  }

  function Live(c: Cache): seq<Node> {
    LiveOf(c.hot, c.index)
  }

  function LiveAbstract(c: Cache): TwoQueue {
    TwoQueue(c.maxCold, c.maxHot, Views(Live(c)), Views(c.cold))
  }

  /** Lists and map, as far as nodes and keys go. */
  ghost predicate Woven(hot: seq<Node>, cold: seq<Node>, index: map<Key, Slot>, next: nat) {
    && Bijection(LiveOf(hot, index) + cold, index, next)
    && AllAnchored(hot, index) && Marked(cold, false)
    && Below(hot + cold, next) && Distinct(hot + cold)
  }

  ghost predicate Loose(c: Cache) {
    && Woven(c.hot, c.cold, c.index, c.nextNode)
    && c.hotUsage == Weight(Views(Live(c)))
    && c.coldUsage == Weight(Views(c.cold))
    && c.hotUsage + c.coldUsage < TWO_TO_THE_32
    && 0 < c.maxHot && 0 < c.maxCold
  }

  /** What holds over runs with hot hits: loosely linked, and both queues below their caps. */
  ghost predicate LooselyValid(c: Cache) {
    && Loose(c)
    && c.hotUsage < c.maxHot
    && c.coldUsage < c.maxCold
  }

  // --- Live nodes ------------------------------------------------------------------------------------

  lemma {:induction false} LiveOfConcat(a: seq<Node>, b: seq<Node>, index: map<Key, Slot>)
    ensures LiveOf(a + b, index) == LiveOf(a, index) + LiveOf(b, index)
    decreases |b|
  {
    hide One;
    if b == [] {
      assert a + b == a;
    } else {
      assert Front(a + b) == a + Front(b) && Last(a + b) == Last(b);
      LiveOfConcat(a, Front(b), index);
    }
  }

  lemma LiveOfOne(n: Node, index: map<Key, Slot>)
    ensures LiveOf([n], index) == One(index, n)
  {
    assert Front([n]) == [];
  }

  lemma LiveOfSplit(nodes: seq<Node>, index: map<Key, Slot>, j: nat)
    requires j < |nodes|
    ensures LiveOf(nodes, index) == LiveOf(nodes[..j], index) + One(index, nodes[j]) + LiveOf(nodes[j + 1..], index)
  {
    hide One;
    assert nodes == nodes[..j] + [nodes[j]] + nodes[j + 1..];
    LiveOfConcat(nodes[..j] + [nodes[j]], nodes[j + 1..], index);
    LiveOfConcat(nodes[..j], [nodes[j]], index);
    LiveOfOne(nodes[j], index);
  }

  /** Which nodes are live depends on the map entries of their own keys. */
  lemma {:induction false} LiveOfFrame(nodes: seq<Node>, index: map<Key, Slot>, index1: map<Key, Slot>)
    requires forall n | n in nodes :: IsLive(index, n) == IsLive(index1, n)
    ensures LiveOf(nodes, index) == LiveOf(nodes, index1)
  {
    if nodes != [] {
      assert Last(nodes) in nodes;
      LiveOfFrame(Front(nodes), index, index1);
    }
  }

  /** Where the live node at j stands among the live nodes. */
  function LivePlace(nodes: seq<Node>, index: map<Key, Slot>, j: nat): (q: nat)
    requires j < |nodes| && IsLive(index, nodes[j])
    ensures q < |LiveOf(nodes, index)| && LiveOf(nodes, index)[q] == nodes[j]
  {
    LiveOfSplit(nodes, index, j);
    |LiveOf(nodes[..j], index)|
  }

  // --- Keys and nodes --------------------------------------------------------------------------------

  /** The node a map entry leads to is in one of the lists, live, and carries the key. */
  lemma LedTo(hot: seq<Node>, cold: seq<Node>, index: map<Key, Slot>, next: nat, key: Key) returns (n: Node)
    requires Woven(hot, cold, index, next) && key in index
    ensures n in hot + cold && n.id == index[key].node && n.key == key && IsLive(index, n)
  {
    var live := LiveOf(hot, index) + cold;
    assert Holds(live, key);
    var p: nat :| p < |live| && live[p].key == key;
    n := live[p];
    assert n in LiveOf(hot, index) || n in cold;
  }

  lemma SameIdSameNode(nodes: seq<Node>, a: Node, b: Node)
    requires Distinct(nodes) && a in nodes && b in nodes && a.id == b.id
    ensures a == b
  {
  }

  /** A node with the id a map entry leads to carries the key. */
  lemma IdHasKey(hot: seq<Node>, cold: seq<Node>, index: map<Key, Slot>, next: nat, key: Key, n: Node)
    requires Woven(hot, cold, index, next) && key in index && n in hot + cold && n.id == index[key].node
    ensures n.key == key && IsLive(index, n)
  {
    var m := LedTo(hot, cold, index, next, key);
    hide Bijection, AllAnchored, LiveOf;
    SameIdSameNode(hot + cold, n, m);
  }

  /** Before a node that is the live one of its key, and behind no anchor, its key does not occur. */
  lemma KeyOnlyAt(hot: seq<Node>, cold: seq<Node>, index: map<Key, Slot>, next: nat, key: Key, k: nat)
    requires Woven(hot, cold, index, next) && key in index && k <= |hot|
    requires forall j: nat | j < k :: hot[j].id != index[key].node
    ensures forall n | n in hot[..k] :: n.key != key
  {
    hide Bijection, LiveOf, Distinct, Below;
    forall n | n in hot[..k] ensures n.key != key {
      var p: nat :| p < k && hot[..k][p] == n;
      assert hot[p] == n && Anchored(hot, index, p);
    }
  }

  lemma ColdKeyNotHot(hot: seq<Node>, cold: seq<Node>, index: map<Key, Slot>, next: nat, i: nat)
    requires Woven(hot, cold, index, next) && i < |cold|
    ensures cold[i].key in index && index[cold[i].key] == Slot(cold[i].slot, cold[i].id)
    ensures forall n | n in hot :: n.key != cold[i].key
  {
    var live := LiveOf(hot, index) + cold;
    AliveAt(live, index, next, |LiveOf(hot, index)| + i);
    hide Bijection, LiveOf, AllAnchored, Below;
    forall j: nat | j < |hot| ensures hot[j].id != cold[i].id {
      assert (hot + cold)[j] == hot[j] && (hot + cold)[|hot| + i] == cold[i];
    }
    KeyOnlyAt(hot, cold, index, next, cold[i].key, |hot|);
    assert hot[..|hot|] == hot;
  }

  lemma FreshNotHot(hot: seq<Node>, cold: seq<Node>, index: map<Key, Slot>, next: nat, key: Key)
    requires Woven(hot, cold, index, next) && key !in index
    ensures forall n | n in hot :: n.key != key
  {
    forall n | n in hot ensures n.key != key {
      var p: nat :| p < |hot| && hot[p] == n;
      assert Anchored(hot, index, p);
    }
  }

  /** Anchors stay when the map changes at a key that no hot node has. */
  lemma AnchoredFrame(hot: seq<Node>, index: map<Key, Slot>, index1: map<Key, Slot>)
    requires AllAnchored(hot, index)
    requires forall n | n in hot :: n.key in index1 && (n.key in index ==> index1[n.key] == index[n.key])
    ensures AllAnchored(hot, index1)
  {
    forall p: nat | p < |hot| ensures Anchored(hot, index1, p) {
      assert Anchored(hot, index, p) && hot[p] in hot;
    }
  }

  lemma SameOffKey(hot: seq<Node>, index: map<Key, Slot>, index1: map<Key, Slot>, key: Key)
    requires AllAnchored(hot, index)
    requires forall n | n in hot :: n.key != key
    requires forall k | k != key :: (k in index <==> k in index1) && (k in index ==> index[k] == index1[k])
    ensures AllAnchored(hot, index1) && LiveOf(hot, index1) == LiveOf(hot, index)
  {
    forall n | n in hot ensures n.key in index && n.key in index1 && index[n.key] == index1[n.key] {
      var p: nat :| p < |hot| && hot[p] == n;
      assert Anchored(hot, index, p);
    }
    AnchoredFrame(hot, index, index1);
    LiveOfFrame(hot, index, index1);
  }
}
