/** With equal priorities the slot cache is exactly LRU. */
module SlotLru {
  import opened SlotCacheSpec
  import opened SlotInclusion
  import opened Maps

  // ---- recency ---------------------------------------------------------------

  /** The keys a run uses: every acquire that fits, and every touch of a cached expert. */
  ghost function Accesses(oracle: Oracle, c: Slots, ops: seq<Op>): seq<Key> {
    if ops == [] then []
    else
      var n := |ops| - 1;
      Accesses(oracle, c, ops[..n]) + Access(Run(oracle, c, ops[..n]), ops[n])
  }

  function Access(c: Slots, op: Op): seq<Key> {
    match op
    case AcquireOp(k, bytes) => if bytes <= c.slotBytes then [k] else []
    case TouchOp(k) => if k in c.cached then [k] else []
  }

  /** The position of the last access to `k`, or -1. */
  function LastAt(acc: seq<Key>, k: Key): (i: int)
    ensures -1 <= i < |acc|
    ensures i >= 0 <==> k in acc
    ensures i >= 0 ==> acc[i] == k
    ensures forall j :: i < j < |acc| ==> acc[j] != k
  {
    if acc == [] then -1
    else if acc[|acc| - 1] == k then |acc| - 1
    else LastAt(acc[..|acc| - 1], k)
  }

  /** The distinct keys accessed since the last access to `k`. */
  function Newer(acc: seq<Key>, k: Key): set<Key> {
    set j | j in acc && LastAt(acc, j) > LastAt(acc, k)
  }

  /** Use times order the cached experts as their last accesses do. */
  ghost predicate TimesAgree(cached: map<Key, Cached>, acc: seq<Key>) {
    && (forall k :: k in cached ==> k in acc)
    && (forall j, k :: j in cached && k in cached ==>
          (cached[j].lastUsed < cached[k].lastUsed <==> LastAt(acc, j) < LastAt(acc, k)))
  }

  /** Every expert that was used and is not cached was last used before every cached one. */
  ghost predicate OthersOlder(cached: map<Key, Cached>, acc: seq<Key>) {
    forall j, k :: k in cached && j in acc && j !in cached ==> LastAt(acc, j) < LastAt(acc, k)
  }

  ghost predicate Recency(c: Slots, acc: seq<Key>) {
    && TimesAgree(c.cached, acc) && OthersOlder(c.cached, acc)
    && (c.free != [] ==> forall j :: j in acc ==> j in c.cached)
  }

  lemma LastAtSnoc(acc: seq<Key>, k: Key, j: Key)
    ensures LastAt(acc + [k], j) == if j == k then |acc| else LastAt(acc, j)
  {
    assert (acc + [k])[..|acc|] == acc;
  }

  ghost predicate Flat(oracle: Oracle) { forall j, k :: oracle(j) == oracle(k) }

  lemma FlatVictim(oracle: Oracle, c: Slots, v: Key, k: Key)
    requires Inv(oracle, c) && Flat(oracle) && IsLowest(c.cached, v) && k in c.cached && k != v
    ensures c.cached[v].lastUsed < c.cached[k].lastUsed
  {
    hide Partition;
    assert oracle(v) == oracle(k);
    assert !Less(c.cached[k], c.cached[v]);
  }

  /** Dropping the oldest cached experts leaves the others younger than all that are not cached. */
  lemma DropOldest(cached: map<Key, Cached>, acc: seq<Key>, out: set<Key>)
    requires TimesAgree(cached, acc) && OthersOlder(cached, acc) && out <= cached.Keys
    requires forall v, j :: v in out && j in cached && j !in out ==> cached[v].lastUsed < cached[j].lastUsed
    ensures TimesAgree(cached - out, acc) && OthersOlder(cached - out, acc)
  {
    hide LastAt;
  }

  lemma UseLast(cached: map<Key, Cached>, acc: seq<Key>, clock: nat, k: Key, e: Cached)
    requires TimesAgree(cached, acc) && OthersOlder(cached, acc) && Clocked(cached, clock)
    requires e.lastUsed == clock + 1
    ensures TimesAgree(cached[k := e], acc + [k]) && OthersOlder(cached[k := e], acc + [k])
  {
    hide LastAt;
    forall j ensures LastAt(acc + [k], j) == if j == k then |acc| else LastAt(acc, j) {
      LastAtSnoc(acc, k, j);
    }
  }

  lemma EvictedOldest(oracle: Oracle, c: Slots, k: Key)
    requires Inv(oracle, c) && Flat(oracle)
    ensures Evicted(c, k) <= c.cached.Keys
    ensures forall v, j :: v in Evicted(c, k) && j in c.cached && j !in Evicted(c, k) ==>
              c.cached[v].lastUsed < c.cached[j].lastUsed
  {
    hide Inv, IsLowest, Flat;
    if Evicted(c, k) != {} {
      var v := Victim(c.cached);
      LowestIn(c.cached, v);
      forall j | j in c.cached && j != v ensures c.cached[v].lastUsed < c.cached[j].lastUsed {
        FlatVictim(oracle, c, v, j);
      }
    }
  }

  lemma AcquireRecency(oracle: Oracle, c: Slots, acc: seq<Key>, k: Key, bytes: nat)
    requires Inv(oracle, c) && Flat(oracle) && Recency(c, acc) && bytes <= c.slotBytes
    ensures Recency(Acquire(oracle, c, k, bytes).0, acc + [k])
  {
    hide Inv, Flat, TimesAgree, OthersOlder, Acquire, Evicted;
    var e := AcquireShape(oracle, c, k, bytes);
    InvClocked(oracle, c);
    EvictedOldest(oracle, c, k);
    DropOldest(c.cached, acc, Evicted(c, k));
    DropKeepsClock(c.cached, c.clock, Evicted(c, k));
    UseLast(c.cached - Evicted(c, k), acc, c.clock, k, e);
    if c.free != [] { NothingEvicted(c, k); }
  }

  lemma StepRecency(oracle: Oracle, c: Slots, acc: seq<Key>, op: Op)
    requires Inv(oracle, c) && Flat(oracle) && Recency(c, acc)
    ensures Recency(Step(oracle, c, op), acc + Access(c, op))
  {
    hide Inv, Flat, TimesAgree, OthersOlder;
    assert acc + [] == acc;
    match op
    case AcquireOp(k, bytes) =>
      if bytes <= c.slotBytes {
        hide Acquire, Recency;
        AcquireRecency(oracle, c, acc, k, bytes);
      }
    case TouchOp(k) =>
      if k in c.cached {
        InvClocked(oracle, c);
        UseLast(c.cached, acc, c.clock, k, c.cached[k].(lastUsed := c.clock + 1));
      }
  }

  lemma {:induction false} RunRecency(oracle: Oracle, c: Slots, ops: seq<Op>)
    requires Inv(oracle, c) && Flat(oracle) && c.cached == map[]
    ensures Recency(Run(oracle, c, ops), Accesses(oracle, c, ops))
  {
    hide Inv, Flat, Step, Access;
    if ops != [] {
      var n := |ops| - 1;
      hide Recency;
      RunInv(oracle, c, ops[..n]);
      RunRecency(oracle, c, ops[..n]);
      StepRecency(oracle, Run(oracle, c, ops[..n]), Accesses(oracle, c, ops[..n]), ops[n]);
    }
  }

  // ---- the specification -------------------------------------------------------

  /** Cached means fewer than numSlots distinct experts used since. */
  lemma RecencyMeansLru(oracle: Oracle, c: Slots, acc: seq<Key>, k: Key)
    requires Inv(oracle, c) && Recency(c, acc)
    ensures k in c.cached <==> k in acc && |Newer(acc, k)| < c.numSlots
  {
    hide Clocked, Partition, LastAt;
    CachedWhenFull(oracle, c);
    if k in c.cached {
      assert Newer(acc, k) <= c.cached.Keys - {k};
      SubsetSize(Newer(acc, k), c.cached.Keys - {k});
      assert |c.cached.Keys - {k}| == |c.cached.Keys| - 1;
    } else if k in acc {
      assert c.cached.Keys <= Newer(acc, k);
      SubsetSize(c.cached.Keys, Newer(acc, k));
    }
    assert |c.cached| == |c.cached.Keys|;
  }

  /**
   With equal priorities, after any trace the cached experts are exactly the numSlots
   most recently used ones: those with fewer than numSlots distinct experts used since.
   */
  lemma CachedIsLru(oracle: Oracle, slotBytes: nat, numSlots: int, ops: seq<Op>, k: Key)
    requires Flat(oracle) && New(slotBytes, numSlots).Some?
    ensures var c := New(slotBytes, numSlots).value; var acc := Accesses(oracle, c, ops);
            k in Run(oracle, c, ops).cached <==> k in acc && |Newer(acc, k)| < numSlots
  {
    hide Inv, Recency, Newer, LastAt, Flat, Step;
    var c := New(slotBytes, numSlots).value;
    NewInv(oracle, slotBytes, numSlots);
    RunInv(oracle, c, ops);
    RunRecency(oracle, c, ops);
    RecencyMeansLru(oracle, Run(oracle, c, ops), Accesses(oracle, c, ops), k);
  }

  /** ... and there are min(numSlots, distinct experts used) of them. */
  lemma CachedCount(oracle: Oracle, slotBytes: nat, numSlots: int, ops: seq<Op>)
    requires Flat(oracle) && New(slotBytes, numSlots).Some?
    ensures var c := New(slotBytes, numSlots).value;
            var used := set k | k in Accesses(oracle, c, ops);
            |Run(oracle, c, ops).cached| == if |used| < numSlots then |used| else numSlots
  {
    hide Inv, Flat, Step, Accesses;
    var c := New(slotBytes, numSlots).value;
    var r, acc := Run(oracle, c, ops), Accesses(oracle, c, ops);
    NewInv(oracle, slotBytes, numSlots);
    RunInv(oracle, c, ops);
    RunRecency(oracle, c, ops);
    CachedWhenFull(oracle, r);
    var used := set k | k in acc;
    assert |r.cached| == |r.cached.Keys|;
    assert r.cached.Keys <= used;
    SubsetSize(r.cached.Keys, used);
    if r.free != [] { assert r.cached.Keys == used; }
  }
}
