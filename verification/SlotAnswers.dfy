/** What acquire tells its caller: the slot, and whether the expert was there (dee.cpp/src/vram_cache_manager.cpp). */
module SlotAnswers {
  import opened Wrappers
  import opened Maps
  import opened SlotTables
  import opened SlotCacheSpec

  /** Construction needs slots, and room in them; the new cache is empty, with all its slots free. */
  lemma NewIff(slotBytes: nat, numSlots: int)
    ensures New(slotBytes, numSlots).Some? <==> numSlots > 0 && slotBytes > 0
    ensures New(slotBytes, numSlots).Some? ==>
              var c := New(slotBytes, numSlots).value;
              && c.slotBytes == slotBytes && c.numSlots == numSlots == |c.free| && c.cached == map[]
              && c.clock == 0 && c.lastEvicted == None
  {
  }

  // ---- one call ----------------------------------------------------------

  /** Everything but `k` that is cached afterwards is as it was. */
  ghost predicate OthersSame(c: map<Key, Cached>, d: map<Key, Cached>, k: Key) {
    forall j :: j in d && j != k ==> j in c && d[j] == c[j]
  }

  /**
   A refused expert changes nothing. Otherwise the caller is told the slot that holds the expert
   from now on, and `hit` exactly if it was cached before; the expert is the one used last.
   */
  lemma AcquireAnswers(oracle: Oracle, c: Slots, k: Key, bytes: nat)
    requires Inv(oracle, c)
    ensures var (d, out) := Acquire(oracle, c, k, bytes);
            && (out.TooLarge? <==> bytes > c.slotBytes) && (out.TooLarge? ==> d == c)
            && (out.Acquired? ==>
                && k in d.cached && out.slot == d.cached[k].slot && (out.hit <==> k in c.cached)
                && d.cached[k].lastUsed == d.clock == c.clock + 1 && OthersSame(c.cached, d.cached, k))
  {
    hide Partition, Clocked;
    CachedWhenFull(oracle, c);
  }

  /** A hit keeps the expert's slot, size and priority, and evicts nobody. */
  lemma HitKeeps(oracle: Oracle, c: Slots, k: Key, bytes: nat)
    requires Inv(oracle, c) && bytes <= c.slotBytes && k in c.cached
    ensures var d := Acquire(oracle, c, k, bytes).0;
            && d.cached.Keys == c.cached.Keys && d.cached[k] == c.cached[k].(lastUsed := d.clock)
            && d.free == c.free && d.lastEvicted == c.lastEvicted
  {
    hide Inv;
  }

  /** A miss with a free slot takes the one at the back of the list, and evicts nobody. */
  lemma MissTakesFree(oracle: Oracle, c: Slots, k: Key, bytes: nat)
    requires Inv(oracle, c) && bytes <= c.slotBytes && k !in c.cached && c.free != []
    ensures var (d, out) := Acquire(oracle, c, k, bytes);
            && k in d.cached && d.cached[k].bytes == bytes && d.cached[k].priority == oracle(k)
            && d.cached.Keys == c.cached.Keys + {k} && d.lastEvicted == c.lastEvicted
            && out.Acquired? && c.free == d.free + [out.slot]
  {
    hide Inv;
    assert c.free == c.free[..|c.free| - 1] + [c.free[|c.free| - 1]];
  }

  /** A miss in a full cache takes over the slot of the lowest expert, which is remembered as evicted. */
  lemma MissEvictsLowest(oracle: Oracle, c: Slots, k: Key, bytes: nat)
    requires Inv(oracle, c) && bytes <= c.slotBytes && k !in c.cached && c.free == []
    ensures var (d, out) := Acquire(oracle, c, k, bytes);
            && k in d.cached && d.cached[k].bytes == bytes && d.cached[k].priority == oracle(k) && d.free == []
            && d.lastEvicted.Some? && out.Acquired?
            && var v := d.lastEvicted.value;
               IsLowest(c.cached, v) && d.cached.Keys == c.cached.Keys - {v} + {k} && out.slot == c.cached[v].slot
  {
    CachedWhenFull(oracle, c);
    hide Inv, Less;
    var v := Victim(c.cached);
    assert IsLowest(c.cached, v);
  }

  // ---- whole runs ----------------------------------------------------------

  ghost function Answer(oracle: Oracle, c: Slots, op: Op): Outcome {
    if op.AcquireOp? then Acquire(oracle, c, op.key, op.bytes).1 else TooLarge
  }

  /** The slot `k` was told at the last acquire that returned one. */
  ghost function LastTold(oracle: Oracle, c: Slots, ops: seq<Op>, k: Key): Option<nat> {
    if ops == [] then None
    else
      var n := |ops| - 1;
      var out := Answer(oracle, Run(oracle, c, ops[..n]), ops[n]);
      if ops[n].AcquireOp? && ops[n].key == k && out.Acquired? then Some(out.slot)
      else LastTold(oracle, c, ops[..n], k)
  }

  lemma StepHolds(oracle: Oracle, c: Slots, op: Op, k: Key)
    requires Inv(oracle, c) && k in Step(oracle, c, op).cached
    ensures var d := Step(oracle, c, op);
            if op.AcquireOp? && op.key == k && Answer(oracle, c, op).Acquired?
            then d.cached[k].slot == Answer(oracle, c, op).slot
            else k in c.cached && d.cached[k].slot == c.cached[k].slot
  {
    hide Inv, Acquire;
    if op.AcquireOp? { AcquireAnswers(oracle, c, op.key, op.bytes); }
  }

  /** In every run from an empty cache, whoever is cached sits in the slot its last acquire was told. */
  lemma {:induction false} HoldsWhatWasTold(oracle: Oracle, c: Slots, ops: seq<Op>, k: Key)
    requires Inv(oracle, c) && c.cached == map[] && k in Run(oracle, c, ops).cached
    ensures LastTold(oracle, c, ops, k) == Some(Run(oracle, c, ops).cached[k].slot)
  {
    hide Inv, Step, Answer;
    var n := |ops| - 1;
    RunInv(oracle, c, ops[..n]);
    StepHolds(oracle, Run(oracle, c, ops[..n]), ops[n], k);
    var op := ops[n];
    if !(op.AcquireOp? && op.key == k && Answer(oracle, Run(oracle, c, ops[..n]), op).Acquired?) {
      HoldsWhatWasTold(oracle, c, ops[..n], k);
    }
  }

  lemma SlotsApart(numSlots: nat, free: seq<nat>, cached: map<Key, Cached>, j: Key, k: Key)
    requires Partition(numSlots, free, cached) && j in cached && k in cached && j != k
    ensures cached[j].slot != cached[k].slot && cached[j].slot < numSlots && cached[k].slot < numSlots
  {
    var used := Occupied(cached);
    assert j in used && k in used && used[j] == cached[j].slot && used[k] == cached[k].slot;
  }

  /** Two experts cached at the same time were told different slots, both within the arena. */
  lemma ToldApart(oracle: Oracle, slotBytes: nat, numSlots: int, ops: seq<Op>, j: Key, k: Key)
    requires New(slotBytes, numSlots).Some? && j != k
    requires var d := Run(oracle, New(slotBytes, numSlots).value, ops); j in d.cached && k in d.cached
    ensures var c := New(slotBytes, numSlots).value;
            var a, b := LastTold(oracle, c, ops, j), LastTold(oracle, c, ops, k);
            a.Some? && b.Some? && a.value != b.value && a.value < numSlots && b.value < numSlots
  {
    hide Partition, Clocked;
    var c := New(slotBytes, numSlots).value;
    NewInv(oracle, slotBytes, numSlots);
    RunInv(oracle, c, ops);
    HoldsWhatWasTold(oracle, c, ops, j);
    HoldsWhatWasTold(oracle, c, ops, k);
    var d := Run(oracle, c, ops);
    SlotsApart(d.numSlots, d.free, d.cached, j, k);
  }

  // ---- the order of the free list -------------------------------------------------

  /** The slots not handed out yet, highest first: those from |cached| on. */
  ghost predicate Ascending(c: Slots) {
    && |c.free| + |c.cached| == c.numSlots
    && forall i :: 0 <= i < |c.free| ==> c.free[i] == c.numSlots - 1 - i
  }

  lemma TakenAscends(c: Slots, d: Slots, slot: nat)
    requires Ascending(c) && c.free == d.free + [slot] && d.numSlots == c.numSlots
    requires |d.free| + |d.cached| == d.numSlots
    ensures Ascending(d) && slot == |c.cached|
  {
    forall i | 0 <= i < |d.free| ensures d.free[i] == d.numSlots - 1 - i { assert c.free[i] == d.free[i]; }
    assert c.free[|d.free|] == slot;
  }

  lemma StepAscending(oracle: Oracle, c: Slots, op: Op)
    requires Inv(oracle, c) && Ascending(c)
    ensures Ascending(Step(oracle, c, op))
    ensures op.AcquireOp? && op.bytes <= c.slotBytes && op.key !in c.cached && c.free != [] ==>
              Answer(oracle, c, op).Acquired? && Answer(oracle, c, op).slot == |c.cached|
  {
    hide Inv, Acquire, IsLowest;
    var d := Step(oracle, c, op);
    StepInv(oracle, c, op);
    CachedWhenFull(oracle, d);
    if op.AcquireOp? && op.bytes <= c.slotBytes {
      AcquireAnswers(oracle, c, op.key, op.bytes);
      if op.key in c.cached {
        HitKeeps(oracle, c, op.key, op.bytes);
      } else {
        if c.free != [] {
          MissTakesFree(oracle, c, op.key, op.bytes);
          TakenAscends(c, d, Answer(oracle, c, op).slot);
        } else {
          MissEvictsLowest(oracle, c, op.key, op.bytes);
        }
      }
    } else if op.AcquireOp? {
      AcquireAnswers(oracle, c, op.key, op.bytes);
    }
  }

  lemma {:induction false} RunAscending(oracle: Oracle, c: Slots, ops: seq<Op>)
    requires Inv(oracle, c) && Ascending(c)
    ensures Ascending(Run(oracle, c, ops))
  {
    hide Inv, Step, Ascending;
    if ops != [] {
      var n := |ops| - 1;
      RunAscending(oracle, c, ops[..n]);
      RunInv(oracle, c, ops[..n]);
      StepAscending(oracle, Run(oracle, c, ops[..n]), ops[n]);
    }
  }

  /** Until the cache is full, each new expert is told the next slot: 0, 1, 2, ... */
  lemma NextSlot(oracle: Oracle, slotBytes: nat, numSlots: int, ops: seq<Op>, k: Key, bytes: nat)
    requires New(slotBytes, numSlots).Some? && bytes <= slotBytes
    requires var d := Run(oracle, New(slotBytes, numSlots).value, ops); k !in d.cached && |d.cached| < numSlots
    ensures var d := Run(oracle, New(slotBytes, numSlots).value, ops);
            Acquire(oracle, d, k, bytes).1 == Acquired(|d.cached|, false)
  {
    hide Inv, Acquire;
    var c := New(slotBytes, numSlots).value;
    NewInv(oracle, slotBytes, numSlots);
    RunInv(oracle, c, ops);
    RunAscending(oracle, c, ops);
    var d := Run(oracle, c, ops);
    StepAscending(oracle, d, AcquireOp(k, bytes));
    AcquireAnswers(oracle, d, k, bytes);
  }
}
