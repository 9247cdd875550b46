/** Two runs of the slot cache on one trace: more slots never lose a hit. */
module SlotInclusion {
  import opened SlotCacheSpec
  import opened SlotAnswers

  /** Experts cached in both are used in the same order. */
  ghost predicate SameOrder(c: map<Key, Cached>, d: map<Key, Cached>) {
    forall j, k :: j in c && k in c && j in d && k in d ==>
      (c[j].lastUsed < c[k].lastUsed <==> d[j].lastUsed < d[k].lastUsed)
  }

  /** The small cache `c` is inside the large cache `d`, and equal to it until it fills up. */
  ghost predicate Within(oracle: Oracle, c: Slots, d: Slots) {
    && Inv(oracle, c) && Inv(oracle, d)
    && c.numSlots <= d.numSlots && c.slotBytes == d.slotBytes
    && c.cached.Keys <= d.cached.Keys
    && SameOrder(c.cached, d.cached)
    && (c.free != [] ==> c.cached.Keys == d.cached.Keys)
  }

  lemma SameSize(c: map<Key, Cached>, d: map<Key, Cached>)
    requires c.Keys == d.Keys
    ensures |c| == |d|
  {
    assert |c| == |c.Keys| && |d| == |d.Keys|;
  }

  /** While the small cache has room, so does the large one. */
  lemma RoomInBoth(oracle: Oracle, c: Slots, d: Slots)
    requires Within(oracle, c, d) && c.free != []
    ensures d.free != []
  {
    hide Clocked, SameOrder;
    SameSize(c.cached, d.cached);
    CachedWhenFull(oracle, c);
    CachedWhenFull(oracle, d);
  }

  /** If the large cache's victim is cached in the small one, it is the small one's victim too. */
  lemma VictimShared(oracle: Oracle, c: Slots, d: Slots, v: Key)
    requires Within(oracle, c, d) && IsLowest(d.cached, v) && v in c.cached
    ensures IsLowest(c.cached, v)
  {
    hide Partition, Clocked;
    forall k | k in c.cached ensures !Less(c.cached[k], c.cached[v]) {
      assert k in d.cached && !Less(d.cached[k], d.cached[v]);
      assert d.cached[k].lastUsed < d.cached[v].lastUsed <==> c.cached[k].lastUsed < c.cached[v].lastUsed;
    }
  }

  /** Using `k` last in both keeps the order the same. */
  lemma UseKeepsOrder(c: map<Key, Cached>, d: map<Key, Cached>, cc: nat, dc: nat, k: Key, e: Cached, f: Cached)
    requires SameOrder(c, d) && Clocked(c, cc) && Clocked(d, dc)
    requires e.lastUsed == cc + 1 && f.lastUsed == dc + 1
    ensures SameOrder(c[k := e], d[k := f])
  {
  }

  lemma DropKeepsOrder(c: map<Key, Cached>, d: map<Key, Cached>, v: set<Key>, w: set<Key>)
    requires SameOrder(c, d)
    ensures SameOrder(c - v, d - w)
  {
  }

  lemma DropKeepsClock(c: map<Key, Cached>, clock: nat, v: set<Key>)
    requires Clocked(c, clock)
    ensures Clocked(c - v, clock)
  {
  }

  // ---- what one acquire does to the map -------------------------------------

  /** The experts evicted to make room for `k`. */
  ghost function Evicted(c: Slots, k: Key): set<Key> {
    if k in c.cached || c.free != [] || c.cached == map[] then {} else {Victim(c.cached)}
  }

  lemma AcquireShape(oracle: Oracle, c: Slots, k: Key, bytes: nat) returns (e: Cached)
    requires Inv(oracle, c) && bytes <= c.slotBytes
    ensures var r := Acquire(oracle, c, k, bytes).0;
            && r.cached == (c.cached - Evicted(c, k))[k := e] && e.lastUsed == c.clock + 1
            && r.numSlots == c.numSlots && r.slotBytes == c.slotBytes
            && (r.free != [] ==> c.free != [])
    ensures k !in Evicted(c, k)
  {
    hide Partition, Clocked;
    CachedWhenFull(oracle, c);
    var r := Acquire(oracle, c, k, bytes).0;
    e := r.cached[k];
    assert c.cached - {} == c.cached;
  }

  /** What the large cache drops, the small one does not keep. */
  lemma EvictedWithin(oracle: Oracle, c: Slots, d: Slots, k: Key)
    requires Within(oracle, c, d)
    ensures (c.cached.Keys - Evicted(c, k)) + {k} <= (d.cached.Keys - Evicted(d, k)) + {k}
  {
    hide Inv, SameOrder;
    if k !in d.cached && d.free == [] && d.cached != map[] {
      var v := Victim(d.cached);
      if v in c.cached {
        if c.free != [] { RoomInBoth(oracle, c, d); }
        VictimShared(oracle, c, d, v);
        InvClocked(oracle, c);
        LowestUnique(c.cached, c.clock, v, Victim(c.cached));
      }
    }
  }

  lemma AcquireWithin(oracle: Oracle, c: Slots, d: Slots, k: Key, bytes: nat)
    requires Within(oracle, c, d) && bytes <= c.slotBytes
    ensures Within(oracle, Acquire(oracle, c, k, bytes).0, Acquire(oracle, d, k, bytes).0)
  {
    hide Inv, SameOrder, Acquire, Evicted;
    AcquireInv(oracle, c, k, bytes);
    AcquireInv(oracle, d, k, bytes);
    var e := AcquireShape(oracle, c, k, bytes);
    var f := AcquireShape(oracle, d, k, bytes);
    EvictedWithin(oracle, c, d, k);
    InvClocked(oracle, c);
    InvClocked(oracle, d);
    DropKeepsOrder(c.cached, d.cached, Evicted(c, k), Evicted(d, k));
    DropKeepsClock(c.cached, c.clock, Evicted(c, k));
    DropKeepsClock(d.cached, d.clock, Evicted(d, k));
    UseKeepsOrder(c.cached - Evicted(c, k), d.cached - Evicted(d, k), c.clock, d.clock, k, e, f);
    if c.free != [] {
      RoomInBoth(oracle, c, d);
      NothingEvicted(c, k);
      NothingEvicted(d, k);
    }
  }

  lemma NothingEvicted(c: Slots, k: Key)
    requires c.free != []
    ensures Evicted(c, k) == {}
  {
  }

  lemma TouchWithin(oracle: Oracle, c: Slots, d: Slots, k: Key)
    requires Within(oracle, c, d)
    ensures Within(oracle, Touch(c, k), Touch(d, k))
  {
    hide Inv, SameOrder;
    InvClocked(oracle, c);
    InvClocked(oracle, d);
    if k in c.cached {
      RefreshInv(oracle, c, k);
      RefreshInv(oracle, d, k);
      UseKeepsOrder(c.cached, d.cached, c.clock, d.clock, k,
                    c.cached[k].(lastUsed := c.clock + 1), d.cached[k].(lastUsed := d.clock + 1));
    } else if k in d.cached {
      RefreshInv(oracle, d, k);
      OthersKeepOrder(c.cached, d.cached, k, d.cached[k].(lastUsed := d.clock + 1));
    }
  }

  lemma OthersKeepOrder(c: map<Key, Cached>, d: map<Key, Cached>, k: Key, f: Cached)
    requires SameOrder(c, d) && k !in c
    ensures SameOrder(c, d[k := f])
  {
  }

  lemma StepWithin(oracle: Oracle, c: Slots, d: Slots, op: Op)
    requires Within(oracle, c, d)
    ensures Within(oracle, Step(oracle, c, op), Step(oracle, d, op))
  {
    match op
    case AcquireOp(k, bytes) =>
      if bytes <= c.slotBytes {
        hide Inv, SameOrder, Acquire;
        AcquireWithin(oracle, c, d, k, bytes);
      } else {
        hide Inv, SameOrder;
      }
    case TouchOp(k) =>
      hide Within, Touch;
      TouchWithin(oracle, c, d, k);
  }

  // ---- hits ------------------------------------------------------------------

  /** The caller is told that its expert was cached. */
  ghost predicate Hits(oracle: Oracle, c: Slots, op: Op) {
    Answer(oracle, c, op).Acquired? && Answer(oracle, c, op).hit
  }

  lemma HitsIff(oracle: Oracle, c: Slots, op: Op)
    requires Inv(oracle, c)
    ensures Hits(oracle, c, op) <==> op.AcquireOp? && op.bytes <= c.slotBytes && op.key in c.cached
  {
    hide Inv, Acquire;
    if op.AcquireOp? { AcquireAnswers(oracle, c, op.key, op.bytes); }
  }

  ghost function HitCount(oracle: Oracle, c: Slots, ops: seq<Op>): nat {
    if ops == [] then 0
    else
      var n := |ops| - 1;
      HitCount(oracle, c, ops[..n]) + if Hits(oracle, Run(oracle, c, ops[..n]), ops[n]) then 1 else 0
  }

  lemma {:induction false} RunWithin(oracle: Oracle, c: Slots, d: Slots, ops: seq<Op>)
    requires Within(oracle, c, d)
    ensures Within(oracle, Run(oracle, c, ops), Run(oracle, d, ops))
    ensures HitCount(oracle, c, ops) <= HitCount(oracle, d, ops)
  {
    hide Inv, SameOrder, Step, Hits;
    if ops != [] {
      var n := |ops| - 1;
      RunWithin(oracle, c, d, ops[..n]);
      HitsIff(oracle, Run(oracle, c, ops[..n]), ops[n]);
      HitsIff(oracle, Run(oracle, d, ops[..n]), ops[n]);
      StepWithin(oracle, Run(oracle, c, ops[..n]), Run(oracle, d, ops[..n]), ops[n]);
    }
  }

  /**
   Inclusion, and no Belady anomaly: for any trace of acquires and touches and any fixed
   Oracle, what n slots cache is a subset of what m >= n slots cache, and hits never fall
   as slots grow.
   */
  lemma Inclusion(oracle: Oracle, slotBytes: nat, n: int, m: int, ops: seq<Op>)
    requires 0 < n <= m && slotBytes > 0
    ensures var c, d := New(slotBytes, n).value, New(slotBytes, m).value;
            && Run(oracle, c, ops).cached.Keys <= Run(oracle, d, ops).cached.Keys
            && HitCount(oracle, c, ops) <= HitCount(oracle, d, ops)
  {
    hide Inv;
    NewInv(oracle, slotBytes, n);
    NewInv(oracle, slotBytes, m);
    RunWithin(oracle, New(slotBytes, n).value, New(slotBytes, m).value, ops);
  }
}
