/**
 The fixed-slot expert cache of dee.cpp/src/vram_cache_manager.cpp on values: a free
 list of slots, and eviction of the lowest (Oracle priority, last use) when it is empty.
 The Oracle is a fixed function from keys to priorities.
 */
module SlotCacheSpec {
  import opened Wrappers
  import CacheSpec
  import opened Maps
  import opened SlotTables

  type Key = CacheSpec.Key

  datatype Cached = Cached(slot: nat, bytes: nat, lastUsed: nat, priority: real)

  datatype Slots = Slots(numSlots: nat, slotBytes: nat, free: seq<nat>, cached: map<Key, Cached>,
                         clock: nat, lastEvicted: Option<Key>)

  datatype Outcome = TooLarge | Acquired(slot: nat, hit: bool)

  type Oracle = Key -> real

  // ---- the victim ------------------------------------------------------------

  predicate Less(a: Cached, b: Cached) {
    a.priority < b.priority || (a.priority == b.priority && a.lastUsed < b.lastUsed)
  }

  /** No cached expert comes before `v` in (priority, last use) order. */
  ghost predicate IsLowest(cached: map<Key, Cached>, v: Key) {
    v in cached && forall k :: k in cached ==> !Less(cached[k], cached[v])
  }

  /** The expert evict_victim picks. */
  ghost function Victim(cached: map<Key, Cached>): (v: Key)
    requires cached != map[]
    ensures IsLowest(cached, v)
    decreases |cached|
  {
    assert cached.Keys != {};
    var v :| v in cached.Keys;
    SizeRemove(cached, v);
    var rest := cached - {v};
    assert forall k :: k in cached && k != v ==> k in rest && rest[k] == cached[k];
    if rest == map[] then v
    else
      var w := Victim(rest);
      if Less(cached[w], cached[v]) then w else v
  }

  /** All use times are distinct and no later than the clock. */
  ghost predicate Clocked(cached: map<Key, Cached>, clock: nat) {
    && (forall k :: k in cached ==> cached[k].lastUsed <= clock)
    && (forall j, k :: j in cached && k in cached && j != k ==> cached[j].lastUsed != cached[k].lastUsed)
  }

  /** With distinct use times the lowest expert is unique: eviction is deterministic. */
  lemma LowestUnique(cached: map<Key, Cached>, clock: nat, v: Key, w: Key)
    requires Clocked(cached, clock) && IsLowest(cached, v) && IsLowest(cached, w)
    ensures v == w
  {
    assert !Less(cached[v], cached[w]) && !Less(cached[w], cached[v]);
  }

  // ---- one call ----------------------------------------------------------

  /** The constructor; absent where it throws. */
  function New(slotBytes: nat, numSlots: int): Option<Slots> {
    if numSlots <= 0 || slotBytes == 0 then None
    else
      var free := seq(numSlots, i requires 0 <= i < numSlots => numSlots - 1 - i);
      Some(Slots(numSlots, slotBytes, free, map[], 0, None))
  }

  function Refresh(c: Slots, k: Key): Slots
    requires k in c.cached
  {
    c.(cached := c.cached[k := c.cached[k].(lastUsed := c.clock + 1)], clock := c.clock + 1)
  }

  function Insert(c: Slots, k: Key, slot: nat, bytes: nat, priority: real): Slots {
    c.(cached := c.cached[k := Cached(slot, bytes, c.clock + 1, priority)], clock := c.clock + 1)
  }

  /** Take the slot at the back of the free list. */
  function PopFree(c: Slots): Slots
    requires c.free != []
  {
    c.(free := c.free[..|c.free| - 1])
  }

  function Evict(c: Slots, v: Key): Slots {
    c.(cached := c.cached - {v}, lastEvicted := Some(v))
  }

  ghost function Acquire(oracle: Oracle, c: Slots, k: Key, bytes: nat): (Slots, Outcome) {
    if bytes > c.slotBytes then (c, TooLarge)
    else if k in c.cached then (Refresh(c, k), Acquired(c.cached[k].slot, true))
    else if c.free != [] then
      var slot := c.free[|c.free| - 1];
      (Insert(PopFree(c), k, slot, bytes, oracle(k)), Acquired(slot, false))
    else if c.cached == map[] then (c, TooLarge)  // unreachable: with an empty free list something is cached
    else
      var v := Victim(c.cached);
      var slot := c.cached[v].slot;
      (Insert(Evict(c, v), k, slot, bytes, oracle(k)), Acquired(slot, false))
  }

  function Touch(c: Slots, k: Key): Slots {
    if k in c.cached then Refresh(c, k) else c
  }

  // ---- the invariant -------------------------------------------------------

  ghost function Occupied(cached: map<Key, Cached>): map<Key, nat> {
    map k | k in cached :: cached[k].slot
  }

  /** The free list and the cached experts share out the slots. */
  ghost predicate Partition(numSlots: nat, free: seq<nat>, cached: map<Key, Cached>) {
    Table(numSlots, free, Occupied(cached))
  }

  ghost predicate Inv(oracle: Oracle, c: Slots) {
    && c.numSlots > 0
    && Partition(c.numSlots, c.free, c.cached)
    && Clocked(c.cached, c.clock)
    && forall k :: k in c.cached ==> c.cached[k].priority == oracle(k)
  }

  lemma InvClocked(oracle: Oracle, c: Slots)
    requires Inv(oracle, c)
    ensures Clocked(c.cached, c.clock)
  {
    hide Partition;
  }

  lemma NewInv(oracle: Oracle, slotBytes: nat, numSlots: int)
    requires New(slotBytes, numSlots).Some?
    ensures Inv(oracle, New(slotBytes, numSlots).value)
  {
    var c := New(slotBytes, numSlots).value;
    forall s | 0 <= s < numSlots ensures s in c.free {
      assert c.free[numSlots - 1 - s] == s;
    }
    assert Occupied(c.cached) == map[];
  }

  lemma RefreshPartition(numSlots: nat, free: seq<nat>, cached: map<Key, Cached>, k: Key, e: Cached)
    requires Partition(numSlots, free, cached) && k in cached && e.slot == cached[k].slot
    ensures Partition(numSlots, free, cached[k := e])
  {
    hide Table;
    assert Occupied(cached[k := e]) == Occupied(cached);
  }

  /** An expert takes the slot at the back of the free list. */
  lemma OccupyPartition(numSlots: nat, free: seq<nat>, cached: map<Key, Cached>, k: Key, e: Cached)
    requires Partition(numSlots, free, cached) && k !in cached && free != [] && e.slot == free[|free| - 1]
    ensures Partition(numSlots, free[..|free| - 1], cached[k := e])
  {
    hide Table;
    Occupy(numSlots, free, Occupied(cached), |free| - 1, k);
    assert Occupied(cached[k := e]) == Occupied(cached)[k := e.slot];
    assert Without(free, |free| - 1) == free[..|free| - 1];
  }

  /** An expert takes over the slot of another. */
  lemma ReplacePartition(numSlots: nat, free: seq<nat>, cached: map<Key, Cached>, v: Key, k: Key, e: Cached)
    requires Partition(numSlots, free, cached) && v in cached && k !in cached && e.slot == cached[v].slot
    ensures Partition(numSlots, free, (cached - {v})[k := e])
  {
    hide Table;
    var used := Occupied(cached);
    Release(numSlots, free, used, v);
    Occupy(numSlots, free + [used[v]], used - {v}, |free|, k);
    assert Occupied((cached - {v})[k := e]) == (used - {v})[k := e.slot];
    assert Without(free + [used[v]], |free|) == free;
  }

  lemma RefreshInv(oracle: Oracle, c: Slots, k: Key)
    requires Inv(oracle, c) && k in c.cached
    ensures Inv(oracle, Refresh(c, k))
  {
    hide Partition;
    RefreshPartition(c.numSlots, c.free, c.cached, k, c.cached[k].(lastUsed := c.clock + 1));
  }

  lemma CachedWhenFull(oracle: Oracle, c: Slots)
    requires Inv(oracle, c)
    ensures c.free == [] ==> c.cached != map[]
    ensures |c.free| + |c.cached| == c.numSlots
  {
    assert Occupied(c.cached).Keys == c.cached.Keys;
    assert |Occupied(c.cached)| == |Occupied(c.cached).Keys| && |c.cached| == |c.cached.Keys|;
  }

  lemma InsertInv(oracle: Oracle, c: Slots, k: Key, slot: nat, bytes: nat)
    requires c.numSlots > 0 && Clocked(c.cached, c.clock)
    requires forall j :: j in c.cached ==> c.cached[j].priority == oracle(j)
    requires Partition(c.numSlots, c.free, c.cached[k := Cached(slot, bytes, c.clock + 1, oracle(k))])
    ensures Inv(oracle, Insert(c, k, slot, bytes, oracle(k)))
  {
    hide Partition;
  }

  lemma TakeFreeInv(oracle: Oracle, c: Slots, k: Key, bytes: nat)
    requires Inv(oracle, c) && k !in c.cached && c.free != []
    ensures Inv(oracle, Insert(PopFree(c), k, c.free[|c.free| - 1], bytes, oracle(k)))
  {
    hide Partition;
    OccupyPartition(c.numSlots, c.free, c.cached, k, Cached(c.free[|c.free| - 1], bytes, c.clock + 1, oracle(k)));
    InsertInv(oracle, PopFree(c), k, c.free[|c.free| - 1], bytes);
  }

  lemma ReplaceInv(oracle: Oracle, c: Slots, v: Key, k: Key, bytes: nat)
    requires Inv(oracle, c) && k !in c.cached && v in c.cached
    ensures Inv(oracle, Insert(Evict(c, v), k, c.cached[v].slot, bytes, oracle(k)))
  {
    hide Partition;
    ReplacePartition(c.numSlots, c.free, c.cached, v, k, Cached(c.cached[v].slot, bytes, c.clock + 1, oracle(k)));
    InsertInv(oracle, Evict(c, v), k, c.cached[v].slot, bytes);
  }

  /** In every state `Acquire` keeps the partition, and succeeds unless the expert is too large. */
  lemma AcquireInv(oracle: Oracle, c: Slots, k: Key, bytes: nat)
    requires Inv(oracle, c)
    ensures Inv(oracle, Acquire(oracle, c, k, bytes).0)
    ensures Acquire(oracle, c, k, bytes).1.TooLarge? <==> bytes > c.slotBytes
    ensures bytes <= c.slotBytes ==> k in Acquire(oracle, c, k, bytes).0.cached
  {
    hide Inv, IsLowest;
    CachedWhenFull(oracle, c);
    if bytes <= c.slotBytes {
      if k in c.cached {
        RefreshInv(oracle, c, k);
      } else if c.free != [] {
        TakeFreeInv(oracle, c, k, bytes);
      } else {
        var v := Victim(c.cached);
        LowestIn(c.cached, v);
        ReplaceInv(oracle, c, v, k, bytes);
      }
    }
  }

  lemma LowestIn(cached: map<Key, Cached>, v: Key)
    requires IsLowest(cached, v)
    ensures v in cached
  {
  }

  // ---- whole runs ----------------------------------------------------------

  datatype Op = AcquireOp(key: Key, bytes: nat) | TouchOp(key: Key)

  ghost function Step(oracle: Oracle, c: Slots, op: Op): Slots {
    match op
    case AcquireOp(k, bytes) => Acquire(oracle, c, k, bytes).0
    case TouchOp(k) => Touch(c, k)
  }

  ghost function Run(oracle: Oracle, c: Slots, ops: seq<Op>): Slots {
    if ops == [] then c else Step(oracle, Run(oracle, c, ops[..|ops| - 1]), ops[|ops| - 1])
  }

  lemma StepInv(oracle: Oracle, c: Slots, op: Op)
    requires Inv(oracle, c)
    ensures Inv(oracle, Step(oracle, c, op))
    ensures Step(oracle, c, op).numSlots == c.numSlots && Step(oracle, c, op).slotBytes == c.slotBytes
  {
    hide Inv;
    match op
    case AcquireOp(k, bytes) => AcquireInv(oracle, c, k, bytes);
    case TouchOp(k) => if k in c.cached { RefreshInv(oracle, c, k); }
  }

  /** Every reachable state keeps free and used slots a partition and use times distinct. */
  lemma {:induction false} RunInv(oracle: Oracle, c: Slots, ops: seq<Op>)
    requires Inv(oracle, c)
    ensures Inv(oracle, Run(oracle, c, ops))
    ensures Run(oracle, c, ops).numSlots == c.numSlots && Run(oracle, c, ops).slotBytes == c.slotBytes
  {
    hide Inv, Step;
    if ops != [] {
      RunInv(oracle, c, ops[..|ops| - 1]);
      StepInv(oracle, Run(oracle, c, ops[..|ops| - 1]), ops[|ops| - 1]);
    }
  }
}
