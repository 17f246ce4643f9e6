/**
 The two-queue LRU cache: two lists of nodes, a hash map from keys to nodes, and two byte counters of 32 bits.

 A node's address and a map slot's address are numbers. A node refers to the key kept in its map slot, so
 following that reference is a fault once the slot is gone, as is following a map entry to a node that has
 been freed, or taking the last node of an empty list.
 */
module LruState {

  import opened Common

  type Key = string
  type Value = string

  const TWO_TO_THE_32: nat := 0x1_0000_0000

  datatype Node = Node(id: nat, key: Key, slot: nat, value: Value, isHot: bool, isExist: bool)

  datatype Slot = Slot(slot: nat, node: nat)

  datatype Cache = Cache(
    maxCold: nat,
    maxHot: nat,
    coldUsage: nat,
    hotUsage: nat,
    hot: seq<Node>,
    cold: seq<Node>,
    index: map<Key, Slot>,
    nextNode: nat,
    nextSlot: nat)

  datatype Outcome = Done(cache: Cache) | Fault

  /** What a lookup reports. */
  datatype Hit = Miss | Erased | Found(value: Value)

  datatype GetOutcome = GetDone(cache: Cache, hit: Hit) | GetFault

  // --- 32-bit counters -------------------------------------------------------------------------------

  function Plus(a: nat, b: nat): nat {
    (a + b) % TWO_TO_THE_32
  }

  function Minus(a: nat, b: nat): nat {
    (a - b) % TWO_TO_THE_32
  }

  function Size(n: Node): nat {
    |n.key| + |n.value|
  }

  // --- Lists and references --------------------------------------------------------------------------

  /** The node's reference to its key can be followed. */
  predicate KeyAlive(c: Cache, n: Node) {
    n.key in c.index && c.index[n.key].slot == n.slot
  }

  function FindNode(nodes: seq<Node>, id: nat): (i: nat)
    ensures i <= |nodes|
    ensures i < |nodes| ==> nodes[i].id == id
    ensures forall j: nat | j < i :: nodes[j].id != id
  {
    FirstWhere(nodes, (n: Node) => n.id == id)
  }

  function Front(nodes: seq<Node>): seq<Node>
    requires nodes != []
  {
    nodes[..|nodes| - 1]
  }

  function Last(nodes: seq<Node>): Node
    requires nodes != []
  {
    nodes[|nodes| - 1]
  }

  // --- The loops -------------------------------------------------------------------------------------

  /** One round of the cold eviction. */
  function EvictOne(c: Cache): Outcome {
    if c.cold == [] || !KeyAlive(c, Last(c.cold)) then Fault
    else
      var last := Last(c.cold);
      Done(c.(index := c.index - {last.key}, cold := Front(c.cold), coldUsage := Minus(c.coldUsage, Size(last))))
  }

  /** While the cold queue is at or over its cap, drop its last node. */
  function EvictCold(c: Cache): Outcome
    decreases |c.cold|
  {
    if c.coldUsage < c.maxCold then Done(c)
    else
      match EvictOne(c)
      case Fault => Fault
      case Done(c1) => EvictCold(c1)
  }

  /** One round of the demotion; the branch for a hit in the hot queue does not add to the cold counter. */
  function DemoteOne(c: Cache, addToCold: bool): Outcome {
    if c.hot == [] || !KeyAlive(c, Last(c.hot)) then Fault
    else
      var last := Last(c.hot);
      Done(c.(
           cold := [last.(id := c.nextNode, isHot := false)] + c.cold,
           index := c.index[last.key := Slot(last.slot, c.nextNode)],
           nextNode := c.nextNode + 1,
           hot := Front(c.hot),
           hotUsage := Minus(c.hotUsage, Size(last)),
           coldUsage := if addToCold then Plus(c.coldUsage, Size(last)) else c.coldUsage))
  }

  /** While the hot queue is at or over its cap, move its last node to the front of the cold queue. */
  function DemoteHot(c: Cache, addToCold: bool): Outcome
    decreases |c.hot|
  {
    if c.hotUsage < c.maxHot then Done(c)
    else
      match DemoteOne(c, addToCold)
      case Fault => Fault
      case Done(c1) => DemoteHot(c1, addToCold)
  }

  // --- Operations ------------------------------------------------------------------------------------

  function Report(n: Node): Hit {
    if n.isExist then Found(n.value) else Erased
  }

  /** A hit in the cold queue: the node is taken out and a new one is put at the front of the hot queue. */
  function Promote(c: Cache, key: Key, i: nat): Cache
    requires i < |c.cold| && c.cold[i].key in c.index
  {
    var n := c.cold[i];
    c.(cold := c.cold[..i] + c.cold[i + 1..],
       hot := [n.(id := c.nextNode, isHot := true)] + c.hot,
       index := c.index[n.key := Slot(c.index[n.key].slot, c.nextNode)],
       nextNode := c.nextNode + 1,
       coldUsage := Minus(c.coldUsage, |key| + |n.value|),
       hotUsage := Plus(c.hotUsage, |key| + |n.value|))
  }

  /** A hit in the hot queue: a new node takes over the value, and the old one stays behind without it. */
  function Duplicate(c: Cache, key: Key, i: nat): Cache
    requires i < |c.hot| && key in c.index
  {
    var n := c.hot[i];
    c.(hot := [n.(id := c.nextNode, isHot := true)] + c.hot[i := n.(value := "", slot := c.index[key].slot)],
       index := c.index[key := Slot(c.index[key].slot, c.nextNode)],
       nextNode := c.nextNode + 1)
  }

  function Get(c: Cache, key: Key): GetOutcome {
    if key !in c.index then GetDone(c, Miss)
    else
      var i := FindNode(c.cold, c.index[key].node);
      var j := FindNode(c.hot, c.index[key].node);
      if i < |c.cold| && !c.cold[i].isHot && KeyAlive(c, c.cold[i]) then
        match DemoteHot(Promote(c, key, i), true)
        case Fault => GetFault
        case Done(c1) =>
          match EvictCold(c1)
          case Fault => GetFault
          case Done(c2) => GetDone(c2, Report(c.cold[i]))
      else if j < |c.hot| && c.hot[j].isHot && KeyAlive(c, c.hot[j]) then
        match DemoteHot(Duplicate(c, key, j), false)
        case Fault => GetFault
        case Done(c1) => GetDone(c1, Report(c.hot[j]))
      else GetFault
  }

  /** A new node at the front of the cold queue, known to the map. */
  function PutInFront(c: Cache, key: Key, value: Value, isExist: bool): Cache {
    var slot := if key in c.index then c.index[key].slot else c.nextSlot;
    c.(cold := [Node(c.nextNode, key, slot, value, false, isExist)] + c.cold,
       index := c.index[key := Slot(slot, c.nextNode)],
       nextNode := c.nextNode + 1,
       nextSlot := if key in c.index then c.nextSlot else c.nextSlot + 1,
       coldUsage := Plus(c.coldUsage, |key| + |value|))
  }

  function Set(c: Cache, key: Key, value: Value): Outcome {
    EvictCold(PutInFront(c, key, value, true))
  }

  function SetEraseRecord(c: Cache, key: Key): Outcome {
    EvictCold(PutInFront(c, key, "", false))
  }
}
