/** The cache object: every method is its step function, loop by loop. */
module LruCache {

  import L = LruState

  class KLRUCache {
    const maxProbationMemSize: nat
    const maxProtectedMemSize: nat
    var probationMemoryUsage: nat
    var protectedMemoryUsage: nat
    var protectedList: seq<L.Node>
    var probationList: seq<L.Node>
    var cacheMap: map<L.Key, L.Slot>
    // The next addresses of a list node and of a map slot.
    var nextNode: nat
    var nextSlot: nat

    ghost function State(): L.Cache
      reads this
    {
      L.Cache(maxProbationMemSize, maxProtectedMemSize, probationMemoryUsage, protectedMemoryUsage,
              protectedList, probationList, cacheMap, nextNode, nextSlot)
    }

    constructor (coldMemoryUsage: nat, hotMemoryUsage: nat)
      ensures State() == L.Cache(coldMemoryUsage, hotMemoryUsage, 0, 0, [], [], map[], 0, 0)
    {
      maxProbationMemSize, maxProtectedMemSize := coldMemoryUsage, hotMemoryUsage;
      probationMemoryUsage, protectedMemoryUsage := 0, 0;
      protectedList, probationList, cacheMap := [], [], map[];
      nextNode, nextSlot := 0, 0;
    }

    method Get(key: L.Key) returns (hit: L.Hit)
      requires L.Get(State(), key).GetDone?
      modifies this
      ensures L.GetDone(State(), hit) == L.Get(old(State()), key)
    {
      if key !in cacheMap {
        return L.Miss;
      }
      var entry := cacheMap[key];
      var i := L.FindNode(probationList, entry.node);
      if i < |probationList| && !probationList[i].isHot && probationList[i].key in cacheMap
         && cacheMap[probationList[i].key].slot == probationList[i].slot {
        var node := probationList[i];
        hit := L.Report(node);
        var curKvSize := |key| + |node.value|;
        probationList := probationList[..i] + probationList[i + 1..];
        protectedList := [node.(id := nextNode, isHot := true)] + protectedList;
        cacheMap := cacheMap[node.key := L.Slot(cacheMap[node.key].slot, nextNode)];
        nextNode := nextNode + 1;
        probationMemoryUsage := L.Minus(probationMemoryUsage, curKvSize);
        protectedMemoryUsage := L.Plus(protectedMemoryUsage, curKvSize);
        assert State() == L.Promote(old(State()), key, i);
        DemoteHot(true);
        EvictCold();
      } else {
        var j := L.FindNode(protectedList, entry.node);
        var node := protectedList[j];
        hit := L.Report(node);
        protectedList := [node.(id := nextNode, isHot := true)] + protectedList[j := node.(value := "", slot := entry.slot)];
        cacheMap := cacheMap[key := L.Slot(entry.slot, nextNode)];
        nextNode := nextNode + 1;
        assert State() == L.Duplicate(old(State()), key, j);
        DemoteHot(false);
      }
    }

    method Set(key: L.Key, value: L.Value)
      requires L.Set(State(), key, value).Done?
      modifies this
      ensures L.Done(State()) == L.Set(old(State()), key, value)
    {
      PutInFront(key, value, true);
      EvictCold();
    }

    method SetEraseRecord(key: L.Key)
      requires L.SetEraseRecord(State(), key).Done?
      modifies this
      ensures L.Done(State()) == L.SetEraseRecord(old(State()), key)
    {
      PutInFront(key, "", false);
      EvictCold();
    }

    method PutInFront(key: L.Key, value: L.Value, isExist: bool)
      modifies this
      ensures State() == L.PutInFront(old(State()), key, value, isExist)
    {
      var slot := nextSlot;
      if key in cacheMap {
        slot := cacheMap[key].slot;
      } else {
        nextSlot := nextSlot + 1;
      }
      probationList := [L.Node(nextNode, key, slot, value, false, isExist)] + probationList;
      cacheMap := cacheMap[key := L.Slot(slot, nextNode)];
      nextNode := nextNode + 1;
      probationMemoryUsage := L.Plus(probationMemoryUsage, |key| + |value|);
    }

    /** The loop that moves nodes from the tail of the hot queue to the front of the cold queue. */
    method DemoteHot(addToCold: bool)
      requires L.DemoteHot(State(), addToCold).Done?
      modifies this
      ensures L.Done(State()) == L.DemoteHot(old(State()), addToCold)
    {
      while protectedMemoryUsage >= maxProtectedMemSize
        invariant L.DemoteHot(State(), addToCold) == L.DemoteHot(old(State()), addToCold)
        decreases |protectedList|
      {
        ghost var before := State();
        var last := L.Last(protectedList);
        probationList := [last.(id := nextNode, isHot := false)] + probationList;
        cacheMap := cacheMap[last.key := L.Slot(last.slot, nextNode)];
        nextNode := nextNode + 1;
        protectedList := L.Front(protectedList);
        protectedMemoryUsage := L.Minus(protectedMemoryUsage, L.Size(last));
        if addToCold {
          probationMemoryUsage := L.Plus(probationMemoryUsage, L.Size(last));
        }
        assert L.DemoteOne(before, addToCold) == L.Done(State());
      }
    }

    /** The loop that drops nodes from the tail of the cold queue. */
    method EvictCold()
      requires L.EvictCold(State()).Done?
      modifies this
      ensures L.Done(State()) == L.EvictCold(old(State()))
    {
      while probationMemoryUsage >= maxProbationMemSize
        invariant L.EvictCold(State()) == L.EvictCold(old(State()))
        decreases |probationList|
      {
        ghost var before := State();
        var last := L.Last(probationList);
        cacheMap := cacheMap - {last.key};
        probationList := L.Front(probationList);
        probationMemoryUsage := L.Minus(probationMemoryUsage, L.Size(last));
        assert L.EvictOne(before) == L.Done(State());
      }
    }
  }
}
