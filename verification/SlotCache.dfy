/** The fixed-slot cache of dee.cpp/src/vram_cache_manager.cpp with its fields updated in place. */
module SlotCaches {
  import opened Wrappers
  import opened SlotCacheSpec

  class VramSlotCache {
    const oracle: Oracle
    const slotBytes: nat
    const numSlots: nat
    var freeList: seq<nat>
    var cached: map<Key, Cached>
    var clock: nat
    var lastEvicted: Option<Key>

    ghost function State(): Slots
      reads this
    {
      Slots(numSlots, slotBytes, freeList, cached, clock, lastEvicted)
    }

    /** The accepting path of the constructor; `Create` adds the rejecting one. */
    constructor (bytes: nat, n: int, priority: Oracle)
      requires n > 0 && bytes > 0
      ensures oracle == priority && Some(State()) == New(bytes, n)
    {
      oracle, slotBytes, numSlots := priority, bytes, n;
      cached, clock, lastEvicted := map[], 0, None;
      var list := [];
      var i := n - 1;
      while i >= 0
        invariant -1 <= i < n && |list| == n - 1 - i
        invariant forall j :: 0 <= j < |list| ==> list[j] == n - 1 - j
      {
        list := list + [i];
        i := i - 1;
      }
      assert list == seq(n, i requires 0 <= i < n => n - 1 - i);
      freeList := list;
    }

    static method Create(bytes: nat, n: int, priority: Oracle) returns (cache: Option<VramSlotCache>)
      ensures cache.Some? <==> New(bytes, n).Some?
      ensures cache.Some? ==> fresh(cache.value) && cache.value.State() == New(bytes, n).value
    {
      if n <= 0 || bytes == 0 { return None; }
      var c := new VramSlotCache(bytes, n, priority);
      cache := Some(c);
    }

    /** Scan the map, in whatever order it has, for the lowest priority and least recent use. */
    method FindVictim() returns (victim: Key)
      requires Inv(oracle, State()) && cached != map[]
      ensures victim in cached && victim == Victim(cached)
    {
      hide Inv, Victim;
      var rest := cached.Keys;
      assert rest != {};
      victim :| victim in rest;
      rest := rest - {victim};
      while rest != {}
        invariant rest <= cached.Keys && victim in cached
        invariant forall k :: k in cached && k !in rest ==> !Less(cached[k], cached[victim])
        decreases rest
      {
        var k :| k in rest;
        rest := rest - {k};
        if Less(cached[k], cached[victim]) { victim := k; }
      }
      InvClocked(oracle, State());
      LowestUnique(cached, clock, victim, Victim(cached));
    }

    method EvictVictim() returns (slot: nat)
      requires Inv(oracle, State()) && cached != map[]
      modifies this
      ensures State() == Evict(old(State()), Victim(old(cached)))
      ensures slot == old(cached)[Victim(old(cached))].slot
    {
      hide Inv, Victim;
      var victim := FindVictim();
      slot := cached[victim].slot;
      cached := cached - {victim};
      lastEvicted := Some(victim);
    }

    method Acquire(k: Key, bytes: nat) returns (r: Outcome)
      requires Inv(oracle, State())
      modifies this
      ensures (State(), r) == SlotCacheSpec.Acquire(oracle, old(State()), k, bytes)
    {
      hide Inv, Victim;
      if bytes > slotBytes { return TooLarge; }
      if k in cached {
        clock := clock + 1;
        cached := cached[k := cached[k].(lastUsed := clock)];
        return Acquired(cached[k].slot, true);
      }
      var slot;
      CachedWhenFull(oracle, State());
      if freeList != [] {
        slot := freeList[|freeList| - 1];
        freeList := freeList[..|freeList| - 1];
      } else {
        slot := EvictVictim();
      }
      clock := clock + 1;
      cached := cached[k := Cached(slot, bytes, clock, oracle(k))];
      r := Acquired(slot, false);
    }

    method Touch(k: Key)
      modifies this
      ensures State() == SlotCacheSpec.Touch(old(State()), k)
    {
      if k in cached {
        clock := clock + 1;
        cached := cached[k := cached[k].(lastUsed := clock)];
      }
    }
  }
}
