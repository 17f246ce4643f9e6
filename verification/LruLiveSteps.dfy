/** Each step of the cache keeps lists and map woven together, and what it does to the live nodes. */
module LruLiveSteps {

  import opened LruState
  import opened LruRefinement
  import opened LruCacheTheorems
  import opened LruLive

  // --- Lists of nodes --------------------------------------------------------------------------------

  lemma FreshIdAt(nodes: seq<Node>, next: nat, p: nat, n: Node)
    requires Distinct(nodes) && Below(nodes, next) && p < |nodes| && n.id == next
    ensures Distinct(nodes[p := n]) && Below(nodes[p := n], next + 1)
  {
  }

  lemma FreshIdMoved(nodes: seq<Node>, next: nat, p: nat, n: Node)
    requires Distinct(nodes) && Below(nodes, next) && p < |nodes| && n.id == next
    ensures Distinct([n] + Removed(nodes[p := n], p)) && Below([n] + Removed(nodes[p := n], p), next + 1)
  {
    FreshIdAt(nodes, next, p, n);
    var nodes0 := nodes[p := n];
    var nodes1 := [n] + Removed(nodes0, p);
    assert forall j: nat | j < |nodes1| :: nodes1[j] == nodes0[Source(p, j)];
    hide Removed, Distinct;
    ToFrontDistinct(nodes0, nodes1, p);
  }

  lemma FreshIdInserted(a: seq<Node>, b: seq<Node>, next: nat, n: Node)
    requires Distinct(a + b) && Below(a + b, next) && n.id == next
    ensures Distinct(a + ([n] + b)) && Below(a + ([n] + b), next + 1)
  {
    var nodes, nodes1 := a + b, a + ([n] + b);
    assert nodes1[|a|] == n;
    assert forall j: nat | j < |nodes1| && j != |a| :: nodes1[j] == nodes[if j < |a| then j else j - 1];
    forall i: nat, j: nat | i < |nodes1| && j < |nodes1| && nodes1[i].id == nodes1[j].id ensures i == j {
      if i != |a| && j != |a| {
        assert nodes[if i < |a| then i else i - 1].id == nodes[if j < |a| then j else j - 1].id;
      }
    }
  }

  lemma PrefixDistinct(nodes: seq<Node>, next: nat, k: nat)
    requires Distinct(nodes) && Below(nodes, next) && k <= |nodes|
    ensures Distinct(nodes[..k]) && Below(nodes[..k], next)
  {
  }

  lemma AnchoredFront(hot: seq<Node>, index: map<Key, Slot>)
    requires AllAnchored(hot, index) && hot != []
    ensures AllAnchored(Front(hot), index)
  {
    forall p: nat | p < |Front(hot)| ensures Anchored(Front(hot), index, p) {
      assert Anchored(hot, index, p);
      if !IsLive(index, hot[p]) {
        var j: nat :| j < p && hot[j].id == index[hot[p].key].node;
        assert Front(hot)[j].id == index[hot[p].key].node;
      }
    }
  }

  lemma AnchoredBehind(n: Node, hot: seq<Node>, index: map<Key, Slot>)
    requires AllAnchored(hot, index) && n.isHot && IsLive(index, n) && index[n.key].slot == n.slot
    ensures AllAnchored([n] + hot, index)
  {
    var hot1 := [n] + hot;
    forall p: nat | p < |hot1| ensures Anchored(hot1, index, p) {
      if p > 0 {
        assert Anchored(hot, index, p - 1) && hot1[p] == hot[p - 1];
        if !IsLive(index, hot1[p]) {
          var j: nat :| j < p - 1 && hot[j].id == index[hot1[p].key].node;
          assert hot1[j + 1].id == index[hot1[p].key].node;
        }
      }
    }
  }

  // --- Steps -----------------------------------------------------------------------------------------

  lemma FrontOfConcat(a: seq<Node>, b: seq<Node>)
    requires b != []
    ensures Last(a + b) == Last(b) && Front(a + b) == a + Front(b) == (a + b)[..|a + b| - 1]
  {
  }

  lemma Weave(hot: seq<Node>, cold: seq<Node>, index: map<Key, Slot>, next: nat, live: seq<Node>)
    requires live == LiveOf(hot, index) && Bijection(live + cold, index, next)
    requires AllAnchored(hot, index) && Marked(cold, false)
    requires Below(hot + cold, next) && Distinct(hot + cold)
    ensures Woven(hot, cold, index, next)
  {
    hide LiveOf, Bijection, AllAnchored, Marked, Below, Distinct;
  }

  lemma EvictWoven(hot: seq<Node>, cold: seq<Node>, index: map<Key, Slot>, next: nat)
    requires Woven(hot, cold, index, next) && cold != []
    ensures var last := Last(cold);
            && last.key in index && index[last.key].slot == last.slot
            && Woven(hot, Front(cold), index - {last.key}, next)
            && LiveOf(hot, index - {last.key}) == LiveOf(hot, index)
  {
    var live, last := LiveOf(hot, index), Last(cold);
    ColdKeyNotHot(hot, cold, index, next, |cold| - 1);
    assert Marked(Front(cold), false);
    hide Bijection, AllAnchored, Distinct, Below, LiveOf, Marked;
    SameOffKey(hot, index, index - {last.key}, last.key);
    FrontOfConcat(live, cold);
    FrontOfConcat(hot, cold);
    LastLeaves(live + cold, index, next);
    PrefixDistinct(hot + cold, next, |hot + cold| - 1);
    hide Woven, Front, Last;
    Weave(hot, Front(cold), index - {last.key}, next, live);
  }

  lemma PromoteWoven(hot: seq<Node>, cold: seq<Node>, index: map<Key, Slot>, next: nat, i: nat, n1: Node)
    requires Woven(hot, cold, index, next) && i < |cold| && n1 == cold[i].(id := next, isHot := true)
    ensures n1.key in index && index[n1.key].slot == n1.slot
    ensures var index1 := index[n1.key := Slot(n1.slot, next)];
            && Woven([n1] + hot, cold[..i] + cold[i + 1..], index1, next + 1)
            && LiveOf([n1] + hot, index1) == [n1] + LiveOf(hot, index)
  {
    var index1 := index[n1.key := Slot(n1.slot, next)];
    ColdKeyNotHot(hot, cold, index, next, i);
    PromoteLists(hot, cold, index, next, i, n1, cold[..i] + cold[i + 1..]);
    PromoteLive(hot, index, index1, n1);
    hide *;
    Weave([n1] + hot, cold[..i] + cold[i + 1..], index1, next + 1, [n1] + LiveOf(hot, index));
  }

  lemma PromoteLists(hot: seq<Node>, cold: seq<Node>, index: map<Key, Slot>, next: nat, i: nat, n1: Node, cold1: seq<Node>)
    requires Woven(hot, cold, index, next) && i < |cold| && n1 == cold[i].(id := next, isHot := true)
    requires cold1 == cold[..i] + cold[i + 1..]
    ensures Marked(cold1, false) && AllAnchored(hot, index)
    ensures Below([n1] + hot + cold1, next + 1) && Distinct([n1] + hot + cold1)
    ensures Bijection([n1] + LiveOf(hot, index) + cold1, index[n1.key := Slot(n1.slot, next)], next + 1)
  {
    hide Bijection, AllAnchored, Distinct, Below, LiveOf;
    PromoteBijection(LiveOf(hot, index), cold, index, next, i, n1);
    FreshIdMoved(hot + cold, next, |hot| + i, n1);
    PromotedAll(hot, cold, i, n1);
  }

  lemma PromoteLive(hot: seq<Node>, index: map<Key, Slot>, index1: map<Key, Slot>, n1: Node)
    requires AllAnchored(hot, index) && index1 == index[n1.key := Slot(n1.slot, n1.id)] && n1.isHot
    requires forall n | n in hot :: n.key != n1.key
    ensures AllAnchored([n1] + hot, index1) && LiveOf([n1] + hot, index1) == [n1] + LiveOf(hot, index)
  {
    hide AllAnchored, LiveOf;
    SameOffKey(hot, index, index1, n1.key);
    AnchoredBehind(n1, hot, index1);
    LiveOfConcat([n1], hot, index1);
    LiveOfOne(n1, index1);
  }

  lemma PromoteBijection(live: seq<Node>, cold: seq<Node>, index: map<Key, Slot>, next: nat, i: nat, n1: Node)
    requires Bijection(live + cold, index, next) && i < |cold| && n1 == cold[i].(id := next, isHot := true)
    ensures Bijection(([n1] + live) + (cold[..i] + cold[i + 1..]), index[n1.key := Slot(n1.slot, next)], next + 1)
  {
    hide Bijection;
    var p := |live| + i;
    assert (live + cold)[p] == cold[i];
    Renumbered(live + cold, index, next, p, true);
    ToFront((live + cold)[p := n1], index[n1.key := Slot(n1.slot, next)], next + 1, p);
    PromotedAll(live, cold, i, n1);
  }

  lemma DemoteWoven(hot: seq<Node>, cold: seq<Node>, index: map<Key, Slot>, next: nat, moved: Node)
    requires Woven(hot, cold, index, next) && hot != [] && IsLive(index, Last(hot))
    requires moved == Last(hot).(id := next, isHot := false)
    ensures index[moved.key].slot == moved.slot
    ensures var index1 := index[moved.key := Slot(moved.slot, next)];
            && Woven(Front(hot), [moved] + cold, index1, next + 1)
            && LiveOf(hot, index) == LiveOf(Front(hot), index1) + [Last(hot)]
  {
    var last, k := Last(hot), |hot| - 1;
    var index1 := index[moved.key := Slot(moved.slot, next)];
    assert Anchored(hot, index, k);
    LastKeyNotBefore(hot, cold, index, next);
    assert LiveOf(hot, index) == LiveOf(Front(hot), index) + [last];
    AnchoredFront(hot, index);
    hide Bijection, AllAnchored, Distinct, Below, LiveOf;
    SameOffKey(Front(hot), index, index1, moved.key);
    DemoteBijection(LiveOf(Front(hot), index), last, cold, index, next, moved);
    FreshIdAt(hot + cold, next, k, moved);
    MovedOver(hot, cold, moved);
    hide Woven, Front, Last;
    Weave(Front(hot), [moved] + cold, index1, next + 1, LiveOf(Front(hot), index1));
  }

  lemma MovedOver(hot: seq<Node>, cold: seq<Node>, moved: Node)
    requires hot != [] && !moved.isHot && Marked(cold, false)
    ensures (hot + cold)[|hot| - 1 := moved] == Front(hot) + ([moved] + cold)
    ensures Marked([moved] + cold, false)
  {
  }

  lemma LastKeyNotBefore(hot: seq<Node>, cold: seq<Node>, index: map<Key, Slot>, next: nat)
    requires Woven(hot, cold, index, next) && hot != [] && IsLive(index, Last(hot))
    ensures forall n | n in Front(hot) :: n.key != Last(hot).key
  {
    var k := |hot| - 1;
    hide Bijection, AllAnchored, LiveOf, Below;
    forall j: nat | j < k ensures hot[j].id != hot[k].id {
      assert (hot + cold)[j] == hot[j] && (hot + cold)[k] == hot[k];
    }
    KeyOnlyAt(hot, cold, index, next, hot[k].key, k);
  }

  lemma DemoteBijection(live: seq<Node>, last: Node, cold: seq<Node>, index: map<Key, Slot>, next: nat, moved: Node)
    requires Bijection(live + [last] + cold, index, next) && moved == last.(id := next, isHot := false)
    ensures Bijection(live + ([moved] + cold), index[moved.key := Slot(moved.slot, next)], next + 1)
  {
    var nodes := live + [last] + cold;
    assert nodes[|live|] == last;
    hide Bijection;
    Renumbered(nodes, index, next, |live|, false);
    assert nodes[|live| := moved] == live + ([moved] + cold);
  }

  lemma PutWoven(hot: seq<Node>, cold: seq<Node>, index: map<Key, Slot>, next: nat, n: Node)
    requires Woven(hot, cold, index, next) && n.key !in index && n.id == next && !n.isHot
    ensures var index1 := index[n.key := Slot(n.slot, next)];
            && Woven(hot, [n] + cold, index1, next + 1)
            && LiveOf(hot, index1) == LiveOf(hot, index)
  {
    var live, index1 := LiveOf(hot, index), index[n.key := Slot(n.slot, next)];
    FreshNotHot(hot, cold, index, next, n.key);
    hide Bijection, AllAnchored, Distinct, Below, LiveOf;
    SameOffKey(hot, index, index1, n.key);
    FreshIdInserted(hot, cold, next, n);
    Inserted(live + cold, index, next, |live|, n);
    assert (live + cold)[..|live|] + [n] + (live + cold)[|live|..] == live + ([n] + cold);
    assert Marked([n] + cold, false);
  }

  // --- A hot hit -------------------------------------------------------------------------------------

  /** Off the place of the live node of a key, its other nodes are not live before nor after the map changes. */
  lemma OthersKeepTheirState(hot: seq<Node>, cold: seq<Node>, index: map<Key, Slot>, next: nat, j: nat, part: seq<Node>)
    requires Woven(hot, cold, index, next) && j < |hot| && IsLive(index, hot[j])
    requires part == hot[..j] || part == hot[j + 1..]
    ensures var index1 := index[hot[j].key := Slot(index[hot[j].key].slot, next)];
            LiveOf(part, index1) == LiveOf(part, index)
  {
    var index1 := index[hot[j].key := Slot(index[hot[j].key].slot, next)];
    forall n | n in part ensures IsLive(index, n) == IsLive(index1, n) {
      var p: nat :| p < |hot| && p != j && hot[p] == n;
      assert (hot + cold)[p] == n && (hot + cold)[j] == hot[j];
    }
    hide Bijection, AllAnchored, Distinct, Below, LiveOf;
    LiveOfFrame(part, index, index1);
  }

  lemma DuplicateLive(hot: seq<Node>, cold: seq<Node>, index: map<Key, Slot>, next: nat, j: nat, n1: Node, gone: Node)
    requires Woven(hot, cold, index, next) && j < |hot| && IsLive(index, hot[j])
    requires n1 == hot[j].(id := next, isHot := true) && gone == hot[j].(value := "")
    ensures var index1 := index[n1.key := Slot(index[n1.key].slot, next)];
            LiveOf([n1] + hot[j := gone], index1) == [n1] + Removed(LiveOf(hot, index), LivePlace(hot, index, j))
  {
    var index1 := index[n1.key := Slot(index[n1.key].slot, next)];
    assert gone.id < next by { assert (hot + cold)[j].id < next; }
    OthersKeepTheirState(hot, cold, index, next, j, hot[..j]);
    OthersKeepTheirState(hot, cold, index, next, j, hot[j + 1..]);
    hide Woven, LiveOf;
    LiveOfSplit(hot, index, j);
    LiveOfSplit(hot[j := gone], index1, j);
    LiveOfConcat([n1], hot[j := gone], index1);
    LiveOfOne(n1, index1);
    UpdatedParts(hot, j, gone);
    WithoutMiddle(LiveOf(hot[..j], index), hot[j], LiveOf(hot[j + 1..], index));
  }

  lemma UpdatedParts(nodes: seq<Node>, j: nat, n: Node)
    requires j < |nodes|
    ensures nodes[j := n][..j] == nodes[..j] && nodes[j := n][j + 1..] == nodes[j + 1..]
  {
  }

  lemma WithoutMiddle(a: seq<Node>, n: Node, b: seq<Node>)
    ensures Removed(a + [n] + b, |a|) == a + b && a + [] + b == a + b
  {
    assert (a + [n] + b)[..|a|] == a && (a + [n] + b)[|a| + 1..] == b;
  }

  lemma DuplicateAnchored(hot: seq<Node>, cold: seq<Node>, index: map<Key, Slot>, next: nat, j: nat, n1: Node, gone: Node)
    requires Woven(hot, cold, index, next) && j < |hot| && IsLive(index, hot[j])
    requires n1 == hot[j].(id := next, isHot := true) && gone == hot[j].(value := "")
    ensures AllAnchored([n1] + hot[j := gone], index[n1.key := Slot(index[n1.key].slot, next)])
  {
    var index1, hot1 := index[n1.key := Slot(index[n1.key].slot, next)], [n1] + hot[j := gone];
    hide Bijection, LiveOf;
    assert Anchored(hot, index, j);
    forall p: nat | p < |hot1| ensures Anchored(hot1, index1, p) {
      if p > 0 {
        var n := hot[p - 1];
        assert Anchored(hot, index, p - 1);
        assert (hot + cold)[p - 1] == n && (hot + cold)[j] == hot[j];
        if n.key == n1.key {
          assert hot1[0].id == index1[n.key].node;
          assert n.value == "" || p - 1 == j;
        } else if !IsLive(index, n) {
          var a: nat :| a < p - 1 && hot[a].id == index[n.key].node;
          assert hot1[a + 1].id == index1[n.key].node;
        }
      }
    }
  }

  lemma DuplicateDistinct(nodes: seq<Node>, next: nat, j: nat, n1: Node, gone: Node)
    requires Distinct(nodes) && Below(nodes, next) && j < |nodes| && n1.id == next && gone.id == nodes[j].id
    ensures Distinct([n1] + nodes[j := gone]) && Below([n1] + nodes[j := gone], next + 1)
  {
    var nodes1 := [n1] + nodes[j := gone];
    assert forall p: nat | 0 < p < |nodes1| :: nodes1[p].id == nodes[p - 1].id;
  }

  lemma DuplicateBijection(live: seq<Node>, cold: seq<Node>, index: map<Key, Slot>, next: nat, q: nat, n1: Node)
    requires Bijection(live + cold, index, next) && q < |live| && n1 == live[q].(id := next, isHot := true)
    ensures Bijection(([n1] + Removed(live, q)) + cold, index[n1.key := Slot(n1.slot, next)], next + 1)
  {
    var nodes := live + cold;
    assert nodes[q] == live[q];
    hide Bijection, Removed;
    Renumbered(nodes, index, next, q, true);
    ToFront(nodes[q := n1], index[n1.key := Slot(n1.slot, next)], next + 1, q);
    RemovedFront(live, cold, q, n1);
  }

  lemma RemovedFront(live: seq<Node>, cold: seq<Node>, q: nat, n1: Node)
    requires q < |live|
    ensures [n1] + Removed((live + cold)[q := n1], q) == ([n1] + Removed(live, q)) + cold
  {
    var nodes := live + cold;
    assert nodes[q := n1][..q] == live[..q] && nodes[q := n1][q + 1..] == live[q + 1..] + cold;
  }

  lemma DuplicateWoven(hot: seq<Node>, cold: seq<Node>, index: map<Key, Slot>, next: nat, j: nat, n1: Node, gone: Node)
    requires Woven(hot, cold, index, next) && j < |hot| && IsLive(index, hot[j])
    requires n1 == hot[j].(id := next, isHot := true) && gone == hot[j].(value := "")
    ensures index[n1.key].slot == n1.slot
    ensures var index1 := index[n1.key := Slot(n1.slot, next)];
            && Woven([n1] + hot[j := gone], cold, index1, next + 1)
            && LiveOf([n1] + hot[j := gone], index1) == [n1] + Removed(LiveOf(hot, index), LivePlace(hot, index, j))
  {
    assert Anchored(hot, index, j);
    DuplicateLive(hot, cold, index, next, j, n1, gone);
    DuplicateAnchored(hot, cold, index, next, j, n1, gone);
    var live, q := LiveOf(hot, index), LivePlace(hot, index, j);
    hide Bijection, AllAnchored, Distinct, Below, LiveOf, LivePlace, Removed;
    DuplicateBijection(live, cold, index, next, q, n1);
    DuplicateDistinct(hot + cold, next, j, n1, gone);
    assert [n1] + (hot + cold)[j := gone] == ([n1] + hot[j := gone]) + cold;
  }
}
