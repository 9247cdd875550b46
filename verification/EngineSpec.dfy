/**
 One layer of dee.cpp/src/engine.cpp on values: stage every predicted expert, then wait
 for each, in rank order, and accumulate the contribution of those that are resident.
 The SwiGLU kernel is a parameter; expert blobs are byte strings of one size.
 */
module EngineSpec {
  import opened Wrappers
  import opened Memory
  import opened ArenaSpec
  import opened CacheSpec
  import opened PrefetchSpec
  import opened StaleWeights

  /** `blob(e)` is get_staging's result: absent when a tensor of expert `e` is missing from the shard. */
  datatype Model = Model(topk: Int32, blobBytes: SizeT, blob: Int32 -> Option<seq<Byte>>) {
    ghost predicate Valid(budget: SizeT) {
      && budget + blobBytes < SIZE_LIMIT
      && forall e :: blob(e).Some? ==> |blob(e).value| == blobBytes
    }
  }

  // ---- staging ---------------------------------------------------------------

  function StageOp(m: Model, layer: Int32, es: seq<Int32>, i: nat, vs: seq<Key>): Op
    requires i < |es| <= m.topk
  {
    PrefetchOp(Key(layer, es[i]), m.blob(es[i]), m.blobBytes, m.topk - i, vs)
  }

  function StageOne(m: Model, s: Prefetcher, layer: Int32, es: seq<Int32>, i: nat, vs: seq<Key>): Prefetcher
    requires i < |es| <= m.topk
  {
    if m.blob(es[i]).None? then s else Step(s, StageOp(m, layer, es, i, vs))
  }

  /** The state once the first `n` predicted experts are staged; `vss` are the victims of each prefetch. */
  function StageTo(m: Model, s: Prefetcher, layer: Int32, es: seq<Int32>, vss: seq<seq<Key>>, n: nat): Prefetcher
    requires n <= |es| <= m.topk && |vss| >= n
  {
    if n == 0 then s else StageOne(m, StageTo(m, s, layer, es, vss, n - 1), layer, es, n - 1, vss[n - 1])
  }

  /** The victims are ones the evictions could choose. */
  ghost predicate StageChoices(m: Model, s: Prefetcher, layer: Int32, es: seq<Int32>, vss: seq<seq<Key>>, n: nat)
    requires n <= |es| <= m.topk && |vss| >= n
  {
    forall i :: 0 <= i < n && m.blob(es[i]).Some? ==>
      Choice(StageTo(m, s, layer, es, vss, i).cache, Key(layer, es[i]), m.blobBytes, vss[i])
  }

  // ---- computing -------------------------------------------------------------

  datatype Layer<A> = Layer(state: Prefetcher, acc: A, fallbacks: nat)

  /** The bytes compute reads through the pointer cache_.data returns. */
  function BlockBytes(s: Prefetcher, k: Key): seq<Byte>
    requires k in s.cache.blocks
  {
    var b := s.cache.blocks[k];
    if b.off + b.size <= |s.mem| then s.mem[b.off..b.off + b.size] else []
  }

  function ComputeOne<A>(l: Layer<A>, k: Key, swiglu: (A, seq<Byte>) -> A): Layer<A> {
    var w := Wait(l.state, k).0;
    if k in w.cache.blocks then
      Layer(Step(w, CacheCall(Touching(k))), swiglu(l.acc, BlockBytes(w, k)), l.fallbacks)
    else
      Layer(w, l.acc, l.fallbacks + 1)
  }

  function ComputeTo<A>(l: Layer<A>, layer: Int32, es: seq<Int32>, swiglu: (A, seq<Byte>) -> A, n: nat): Layer<A>
    requires n <= |es|
  {
    if n == 0 then l
    else ComputeOne(ComputeTo(l, layer, es, swiglu, n - 1), Key(layer, es[n - 1]), swiglu)
  }

  // ---- what one layer should compute -----------------------------------------

  /** The true contributions, in rank order, of the experts in `resident`. */
  function Output<A>(m: Model, layer: Int32, es: seq<Int32>, resident: set<Key>,
                     swiglu: (A, seq<Byte>) -> A, zero: A): A
  {
    if es == [] then zero
    else
      var n := |es| - 1;
      var acc := Output(m, layer, es[..n], resident, swiglu, zero);
      if Key(layer, es[n]) in resident && m.blob(es[n]).Some? then swiglu(acc, m.blob(es[n]).value) else acc
  }

  function Skipped(layer: Int32, es: seq<Int32>, resident: set<Key>): nat {
    if es == [] then 0
    else
      var n := |es| - 1;
      Skipped(layer, es[..n], resident) + if Key(layer, es[n]) in resident then 0 else 1
  }

  /** How many of the predictions are used: the number of touches they cause. */
  function Used(layer: Int32, es: seq<Int32>, resident: set<Key>): nat {
    if es == [] then 0
    else
      var n := |es| - 1;
      Used(layer, es[..n], resident) + if Key(layer, es[n]) in resident then 1 else 0
  }

  /** Rank i is the last place `es` names its expert. */
  predicate LastRank(es: seq<Int32>, i: int) { 0 <= i < |es| && forall j :: i < j < |es| ==> es[j] != es[i] }

  /**
   What computing leaves in the cache: each use advances the clock by one; a used expert's
   last use is the tick of its use, so that use times increase with rank; priorities, sizes,
   places and all other blocks are as they were.
   */
  ghost predicate UsedInOrder(before: Cache, after: Cache, layer: Int32, es: seq<Int32>) {
    var resident := before.blocks.Keys;
    && after.arena == before.arena && after.stats == before.stats && after.blocks.Keys == resident
    && after.tick == before.tick + Used(layer, es, resident)
    && (forall k :: k in resident && (forall i :: 0 <= i < |es| ==> k != Key(layer, es[i])) ==>
          after.blocks[k] == before.blocks[k])
    && (forall i :: LastRank(es, i) && Key(layer, es[i]) in resident ==>
          after.blocks[Key(layer, es[i])] ==
          before.blocks[Key(layer, es[i])].(lastUsed := before.tick + Used(layer, es[..i + 1], resident)))
  }

  // ---- the invariant -------------------------------------------------------

  ghost predicate EngineBlocks(m: Model, blocks: map<Key, Block>) {
    forall k :: k in blocks ==>
      blocks[k].size == m.blobBytes && m.blob(k.expert).Some? && blocks[k].priority <= m.topk
  }

  ghost predicate EngineSources(m: Model, s: Prefetcher) {
    forall k :: k in s.cache.blocks && LatestSource(s, k).Some? ==> LatestSource(s, k) == Some(m.blob(k.expert))
  }

  ghost predicate EngineInv(m: Model, s: Prefetcher) {
    PInv(s) && m.Valid(s.cache.arena.cap) && EngineBlocks(m, s.cache.blocks) && EngineSources(m, s)
  }

  lemma PInvParts(s: Prefetcher)
    requires PInv(s)
    ensures Inv(s.cache) && |s.mem| == s.cache.arena.cap
    ensures QueueOk(s.queue, |s.mem|) && DonePrefix(s.queue) && IndexOk(s.queue, s.index)
  {
    hide Inv, QInv;
    ConsistentQueue(s, {});
  }

  lemma StagePossible(m: Model, s: Prefetcher, layer: Int32, es: seq<Int32>, i: nat, vs: seq<Key>)
    requires EngineInv(m, s) && i < |es| <= m.topk && m.blob(es[i]).Some?
    requires Choice(s.cache, Key(layer, es[i]), m.blobBytes, vs)
    ensures Possible(s, StageOp(m, layer, es, i, vs))
  {
    hide PInv, Choice, EngineSources, Sound;
    var k := Key(layer, es[i]);
    PInvParts(s);
    InvHigh(s.cache);
    if k in s.cache.blocks { BlockInside(s.cache, k); }
  }

  lemma EnsureBlocks(m: Model, c: Cache, k: Key, priority: Int32, vs: seq<Key>)
    requires Inv(c) && EngineBlocks(m, c.blocks) && m.blob(k.expert).Some? && priority <= m.topk
    ensures EngineBlocks(m, Ensure(c, k, m.blobBytes, priority, vs).0.blocks)
  {
    hide Sound, Ensure;
    EnsureFrame(c, k, m.blobBytes, priority, vs);
    var d := Ensure(c, k, m.blobBytes, priority, vs).0;
    assert k in c.blocks ==> c.blocks[k].size == c.blocks[k].Range().size;
    assert k in d.blocks ==> d.blocks[k].size == d.blocks[k].Range().size;
  }

  lemma StageBlocks(m: Model, s: Prefetcher, layer: Int32, es: seq<Int32>, i: nat, vs: seq<Key>)
    requires EngineInv(m, s) && i < |es| <= m.topk && m.blob(es[i]).Some?
    ensures EngineBlocks(m, StageOne(m, s, layer, es, i, vs).cache.blocks)
  {
    hide Inv, PInv, Ensure, EngineSources, EngineBlocks, Step;
    PInvParts(s);
    StepCache(s, StageOp(m, layer, es, i, vs));
    EnsureBlocks(m, s.cache, Key(layer, es[i]), m.topk - i, vs);
  }

  lemma StageSources(m: Model, s: Prefetcher, layer: Int32, es: seq<Int32>, i: nat, vs: seq<Key>)
    requires EngineInv(m, s) && i < |es| <= m.topk && m.blob(es[i]).Some?
    ensures EngineSources(m, StageOne(m, s, layer, es, i, vs))
  {
    hide PInv, Inv, Step, LatestSource, IndexOk;
    PInvParts(s);
    var op := StageOp(m, layer, es, i, vs);
    var t := Step(s, op);
    forall k | k in t.cache.blocks && LatestSource(t, k).Some?
      ensures LatestSource(t, k) == Some(m.blob(k.expert))
    {
      if k == op.key {
        PrefetchSource(s, op);
      } else {
        StepSource(s, op, k);
        if k !in s.cache.blocks { StepKeepsAbsent(s, op, k); }
      }
    }
  }

  lemma StageInv(m: Model, s: Prefetcher, layer: Int32, es: seq<Int32>, i: nat, vs: seq<Key>)
    requires EngineInv(m, s) && i < |es| <= m.topk
    requires m.blob(es[i]).Some? ==> Choice(s.cache, Key(layer, es[i]), m.blobBytes, vs)
    ensures EngineInv(m, StageOne(m, s, layer, es, i, vs))
    ensures StageOne(m, s, layer, es, i, vs).cache.arena.cap == s.cache.arena.cap
  {
    hide Consistent, Step, Possible, EngineBlocks, EngineSources, Choice;
    if m.blob(es[i]).Some? {
      StagePossible(m, s, layer, es, i, vs);
      StageBlocks(m, s, layer, es, i, vs);
      StageSources(m, s, layer, es, i, vs);
      StepInv(s, StageOp(m, layer, es, i, vs), {});
      assert {} - {Key(layer, es[i])} == {};
      StepCap(s, StageOp(m, layer, es, i, vs));
    }
  }

  lemma StepCap(s: Prefetcher, op: Op)
    requires PInv(s) && Possible(s, op)
    ensures Step(s, op).cache.arena.cap == s.cache.arena.cap
  {
    hide PInv, Inv, Ensure, Choice, CacheStep, CachePossible;
    PInvParts(s);
    match op
    case PrefetchOp(k, _, n, p, vs) => EnsureInv(s.cache, k, n, p, vs);
    case CacheCall(call) => CacheStepInv(s.cache, call);
    case _ =>
  }

  lemma StageToSuc(m: Model, s: Prefetcher, layer: Int32, es: seq<Int32>, vss: seq<seq<Key>>, n: nat)
    requires 0 < n <= |es| <= m.topk && |vss| >= n && StageChoices(m, s, layer, es, vss, n)
    ensures StageTo(m, s, layer, es, vss, n) ==
            StageOne(m, StageTo(m, s, layer, es, vss, n - 1), layer, es, n - 1, vss[n - 1])
    ensures StageChoices(m, s, layer, es, vss, n - 1)
    ensures m.blob(es[n - 1]).Some? ==>
              Choice(StageTo(m, s, layer, es, vss, n - 1).cache, Key(layer, es[n - 1]), m.blobBytes, vss[n - 1])
  {
    hide StageOne, Choice;
  }

  /** Staging depends only on the victims of the experts staged. */
  lemma {:induction false} StageToSame(m: Model, s: Prefetcher, layer: Int32, es: seq<Int32>,
                                       vss: seq<seq<Key>>, wss: seq<seq<Key>>, n: nat)
    requires n <= |es| <= m.topk && |vss| >= n && |wss| >= n && forall i :: 0 <= i < n ==> vss[i] == wss[i]
    ensures StageTo(m, s, layer, es, vss, n) == StageTo(m, s, layer, es, wss, n)
  {
    hide StageOne;
    if n > 0 { StageToSame(m, s, layer, es, vss, wss, n - 1); }
  }

  lemma {:induction false} StageToInv(m: Model, s: Prefetcher, layer: Int32, es: seq<Int32>, vss: seq<seq<Key>>, n: nat)
    requires EngineInv(m, s) && n <= |es| <= m.topk && |vss| >= n && StageChoices(m, s, layer, es, vss, n)
    ensures EngineInv(m, StageTo(m, s, layer, es, vss, n))
    ensures StageTo(m, s, layer, es, vss, n).cache.arena.cap == s.cache.arena.cap
  {
    hide EngineInv, StageOne, Choice, StageChoices;
    if n > 0 {
      StageToSuc(m, s, layer, es, vss, n);
      StageToInv(m, s, layer, es, vss, n - 1);
      StageInv(m, StageTo(m, s, layer, es, vss, n - 1), layer, es, n - 1, vss[n - 1]);
    }
  }

  // ---- what is staged can be waited for ------------------------------------------

  lemma PrefetchKeepsSource(s: Prefetcher, op: Op, k: Key)
    requires op.PrefetchOp? && LatestSource(s, k).Some?
    ensures LatestSource(Step(s, op), k).Some?
  {
    hide Ensure, Pack;
  }

  lemma StageOneSource(m: Model, t: Prefetcher, layer: Int32, es: seq<Int32>, i: nat, vs: seq<Key>, k: Key)
    requires EngineInv(m, t) && i < |es| <= m.topk
    requires k in StageOne(m, t, layer, es, i, vs).cache.blocks
    requires (k == Key(layer, es[i]) && m.blob(es[i]).Some?) ||
             (k in t.cache.blocks ==> LatestSource(t, k).Some?)
    ensures LatestSource(StageOne(m, t, layer, es, i, vs), k).Some?
  {
    hide PInv, Inv, Step, LatestSource, IndexOk;
    PInvParts(t);
    if m.blob(es[i]).Some? {
      var op := StageOp(m, layer, es, i, vs);
      if k == op.key {
        PrefetchSource(t, op);
      } else {
        if k !in t.cache.blocks { StepKeepsAbsent(t, op, k); }
        PrefetchKeepsSource(t, op, k);
      }
    }
  }

  /** Every staged expert that is resident has a copy queued. */
  lemma {:induction false} StagedHaveSource(m: Model, s: Prefetcher, layer: Int32, es: seq<Int32>,
                                            vss: seq<seq<Key>>, n: nat, i: nat)
    requires EngineInv(m, s) && n <= |es| <= m.topk && |vss| >= n && StageChoices(m, s, layer, es, vss, n)
    requires i < n && Key(layer, es[i]) in StageTo(m, s, layer, es, vss, n).cache.blocks
    ensures LatestSource(StageTo(m, s, layer, es, vss, n), Key(layer, es[i])).Some?
  {
    hide EngineInv, StageOne, StageTo, StageChoices, LatestSource;
    StageToSuc(m, s, layer, es, vss, n);
    var k := Key(layer, es[i]);
    var t := StageTo(m, s, layer, es, vss, n - 1);
    StageToInv(m, s, layer, es, vss, n - 1);
    StageToInv(m, s, layer, es, vss, n);
    EngineFacts(m, StageTo(m, s, layer, es, vss, n));
    if i < n - 1 && k in t.cache.blocks {
      StagedHaveSource(m, s, layer, es, vss, n - 1, i);
    }
    StageOneSource(m, t, layer, es, n - 1, vss[n - 1], k);
  }

  lemma EngineFacts(m: Model, s: Prefetcher)
    requires EngineInv(m, s)
    ensures PInv(s)
    ensures forall k :: k in s.cache.blocks ==> m.blob(k.expert).Some?
  {
    hide PInv;
  }

  // ---- one step of the compute loop ---------------------------------------------

  lemma WaitSources(s: Prefetcher, k: Key, j: Key)
    requires PInv(s)
    ensures LatestSource(Wait(s, k).0, j) == LatestSource(s, j)
  {
    hide Inv, QInv, DrainMem, Pack;
  }

  lemma WaitEngineInv(m: Model, s: Prefetcher, k: Key)
    requires EngineInv(m, s)
    ensures EngineInv(m, Wait(s, k).0)
  {
    hide Consistent, Wait, LatestSource, EngineBlocks;
    WaitInv(s, k, {});
    WaitFrame(s, k);
    forall j { WaitSources(s, k, j); }
  }

  lemma TouchEngineInv(m: Model, s: Prefetcher, k: Key)
    requires EngineInv(m, s)
    ensures EngineInv(m, Step(s, CacheCall(Touching(k))))
    ensures forall j :: LatestSource(Step(s, CacheCall(Touching(k))), j) == LatestSource(s, j)
    ensures Step(s, CacheCall(Touching(k))).cache.blocks.Keys == s.cache.blocks.Keys
  {
    hide Consistent, Pack;
    CallInv(s, Touching(k), {});
    assert {} + Reserved(s.cache, Touching(k)) == {};
  }

  /** The bytes read for a resident, staged expert are its blob. */
  lemma ReadsTrueBlob(m: Model, s: Prefetcher, k: Key)
    requires EngineInv(m, s) && k in s.cache.blocks && LatestSource(s, k).Some?
    ensures k in Wait(s, k).0.cache.blocks && m.blob(k.expert).Some?
    ensures BlockBytes(Wait(s, k).0, k) == m.blob(k.expert).value
  {
    hide Consistent, Wait, LatestSource;
    PInvParts(s);
    WaitFrame(s, k);
    WaitReadyIff(s, k);
    WaitSettles(s, k, {});
  }

  lemma ComputeStep<A>(m: Model, l: Layer<A>, k: Key, swiglu: (A, seq<Byte>) -> A)
    requires EngineInv(m, l.state)
    requires k in l.state.cache.blocks ==> LatestSource(l.state, k).Some?
    ensures var r := ComputeOne(l, k, swiglu);
            && EngineInv(m, r.state)
            && r.state.cache.blocks.Keys == l.state.cache.blocks.Keys
            && (forall j :: LatestSource(r.state, j) == LatestSource(l.state, j))
            && (if k in l.state.cache.blocks
                then && m.blob(k.expert).Some? && r.acc == swiglu(l.acc, m.blob(k.expert).value)
                     && r.fallbacks == l.fallbacks
                else r.acc == l.acc && r.fallbacks == l.fallbacks + 1)
  {
    hide EngineInv, Step, Wait, LatestSource, BlockBytes;
    WaitFrame(l.state, k);
    WaitEngineInv(m, l.state, k);
    EngineFacts(m, l.state);
    forall j { WaitSources(l.state, k, j); }
    TouchEngineInv(m, Wait(l.state, k).0, k);
    if k in l.state.cache.blocks { ReadsTrueBlob(m, l.state, k); }
  }

  lemma {:induction false} ComputeToOutput<A>(m: Model, l: Layer<A>, layer: Int32, es: seq<Int32>,
                                              swiglu: (A, seq<Byte>) -> A, n: nat)
    requires EngineInv(m, l.state) && n <= |es|
    requires forall i :: 0 <= i < |es| && Key(layer, es[i]) in l.state.cache.blocks ==>
               LatestSource(l.state, Key(layer, es[i])).Some?
    ensures var r := ComputeTo(l, layer, es, swiglu, n); var resident := l.state.cache.blocks.Keys;
            && EngineInv(m, r.state)
            && r.state.cache.blocks.Keys == resident
            && (forall j :: LatestSource(r.state, j) == LatestSource(l.state, j))
            && r.acc == Output(m, layer, es[..n], resident, swiglu, l.acc)
            && r.fallbacks == l.fallbacks + Skipped(layer, es[..n], resident)
  {
    hide EngineInv, ComputeOne, LatestSource;
    if n > 0 {
      ComputeToOutput(m, l, layer, es, swiglu, n - 1);
      ComputeStep(m, ComputeTo(l, layer, es, swiglu, n - 1), Key(layer, es[n - 1]), swiglu);
      assert es[..n][..n - 1] == es[..n - 1];
    }
  }

  // ---- what computing does to the cache -------------------------------------------

  lemma {:induction false} UsedOrSkipped(layer: Int32, es: seq<Int32>, resident: set<Key>)
    ensures Used(layer, es, resident) + Skipped(layer, es, resident) == |es|
  {
    if es != [] { UsedOrSkipped(layer, es[..|es| - 1], resident); }
  }

  lemma ComputeOneCache<A>(l: Layer<A>, k: Key, swiglu: (A, seq<Byte>) -> A)
    ensures ComputeOne(l, k, swiglu).state.cache == Touch(l.state.cache, k)
    ensures ComputeOne(l, k, swiglu).state.stats.waited == l.state.stats.waited + 1
  {
    hide Wait, BlockBytes;
    WaitFrame(l.state, k);
    WaitCounts(l.state, k);
  }

  lemma WaitCounts(s: Prefetcher, k: Key)
    ensures Wait(s, k).0.stats.waited == s.stats.waited + 1
  {
    hide DrainMem, DrainQueue;
  }

  /** One more rank. */
  lemma UsedSnoc(a: Cache, b: Cache, layer: Int32, es: seq<Int32>, e: Int32)
    requires UsedInOrder(a, b, layer, es)
    ensures UsedInOrder(a, Touch(b, Key(layer, e)), layer, es + [e])
  {
    var c, more, key := Touch(b, Key(layer, e)), es + [e], Key(layer, e);
    var resident := a.blocks.Keys;
    assert more[..|es|] == es;
    forall k | k in resident && (forall i :: 0 <= i < |more| ==> k != Key(layer, more[i]))
      ensures c.blocks[k] == a.blocks[k]
    {
      assert k != Key(layer, more[|es|]);
      forall i | 0 <= i < |es| ensures k != Key(layer, es[i]) { assert more[i] == es[i]; }
    }
    forall i | LastRank(more, i) && Key(layer, more[i]) in resident
      ensures c.blocks[Key(layer, more[i])] ==
              a.blocks[Key(layer, more[i])].(lastUsed := a.tick + Used(layer, more[..i + 1], resident))
    {
      UsedLast(a, b, layer, es, e, i);
    }
  }

  /** The new rank's own use is the last. */
  lemma UsedNewest(a: Cache, b: Cache, layer: Int32, es: seq<Int32>, e: Int32)
    requires UsedInOrder(a, b, layer, es) && Key(layer, e) in a.blocks
    ensures var k := Key(layer, e);
            k in b.blocks && Touch(b, k).blocks[k] ==
            a.blocks[k].(lastUsed := a.tick + Used(layer, es + [e], a.blocks.Keys))
  {
    var k := Key(layer, e);
    assert (es + [e])[..|es|] == es;
    UsedBlock(a, b, layer, es, k);
    hide UsedInOrder;
    UsedTick(a, b, layer, es);
  }

  lemma UsedTick(a: Cache, b: Cache, layer: Int32, es: seq<Int32>)
    requires UsedInOrder(a, b, layer, es)
    ensures b.tick == a.tick + Used(layer, es, a.blocks.Keys)
  {
    hide Used;
  }

  lemma UsedLast(a: Cache, b: Cache, layer: Int32, es: seq<Int32>, e: Int32, i: nat)
    requires UsedInOrder(a, b, layer, es) && LastRank(es + [e], i) && Key(layer, (es + [e])[i]) in a.blocks
    ensures var more := es + [e]; var k := Key(layer, more[i]);
            k in b.blocks && Touch(b, Key(layer, e)).blocks[k] ==
            a.blocks[k].(lastUsed := a.tick + Used(layer, more[..i + 1], a.blocks.Keys))
  {
    hide Used, UsedInOrder;
    var more := es + [e];
    if i == |es| {
      assert more[..i + 1] == more;
      UsedNewest(a, b, layer, es, e);
    } else {
      assert more[|es|] == e && more[i] == es[i] && more[..i + 1] == es[..i + 1];
      forall j | i < j < |es| ensures es[j] != es[i] { assert more[j] == es[j]; }
      UsedTime(a, b, layer, es, i);
    }
  }

  /** Computing changes nothing of a block but its last use. */
  lemma UsedBlock(a: Cache, b: Cache, layer: Int32, es: seq<Int32>, k: Key)
    requires UsedInOrder(a, b, layer, es) && k in a.blocks
    ensures k in b.blocks && forall t :: b.blocks[k].(lastUsed := t) == a.blocks[k].(lastUsed := t)
  {
    if i :| 0 <= i < |es| && k == Key(layer, es[i]) {
      var j := FindLastRank(es, i);
      assert b.blocks[Key(layer, es[j])] == a.blocks[k].(lastUsed := a.tick + Used(layer, es[..j + 1], a.blocks.Keys));
    } else {
      assert b.blocks[k] == a.blocks[k];
    }
  }

  lemma FindLastRank(es: seq<Int32>, i: nat) returns (j: nat)
    requires i < |es|
    ensures LastRank(es, j) && es[j] == es[i]
  {
    j := i;
    for k := i + 1 to |es|
      invariant i <= j < k && es[j] == es[i] && forall q :: j < q < k ==> es[q] != es[i]
    {
      if es[k] == es[i] { j := k; }
    }
  }

  lemma {:induction false} ComputeToUses<A>(l: Layer<A>, layer: Int32, es: seq<Int32>,
                                            swiglu: (A, seq<Byte>) -> A, n: nat)
    requires n <= |es|
    ensures var r := ComputeTo(l, layer, es, swiglu, n);
            && UsedInOrder(l.state.cache, r.state.cache, layer, es[..n])
            && r.state.stats.waited == l.state.stats.waited + n
  {
    hide ComputeOne, UsedInOrder, Touch;
    if n == 0 {
      NothingUsed(l.state.cache, layer);
    } else {
      ComputeToUses(l, layer, es, swiglu, n - 1);
      ComputeOneCache(ComputeTo(l, layer, es, swiglu, n - 1), Key(layer, es[n - 1]), swiglu);
      UsedSnoc(l.state.cache, ComputeTo(l, layer, es, swiglu, n - 1).state.cache, layer, es[..n - 1], es[n - 1]);
      assert es[..n] == es[..n - 1] + [es[n - 1]];
    }
  }

  lemma NothingUsed(c: Cache, layer: Int32)
    ensures UsedInOrder(c, c, layer, [])
  {
  }

  lemma UsedTime(a: Cache, b: Cache, layer: Int32, es: seq<Int32>, i: nat)
    requires UsedInOrder(a, b, layer, es) && LastRank(es, i) && Key(layer, es[i]) in a.blocks
    ensures Key(layer, es[i]) in b.blocks && b.tick == a.tick + Used(layer, es, a.blocks.Keys)
    ensures b.blocks[Key(layer, es[i])] ==
            a.blocks[Key(layer, es[i])].(lastUsed := a.tick + Used(layer, es[..i + 1], a.blocks.Keys))
  {
    hide Used;
  }

  /** Use times increase with rank, and all lie after staging. */
  lemma UsesAscend(a: Cache, b: Cache, layer: Int32, es: seq<Int32>, i: nat, j: nat)
    requires UsedInOrder(a, b, layer, es) && i < j && LastRank(es, i) && LastRank(es, j)
    requires Key(layer, es[i]) in a.blocks && Key(layer, es[j]) in a.blocks
    ensures a.tick < b.blocks[Key(layer, es[i])].lastUsed < b.blocks[Key(layer, es[j])].lastUsed <= b.tick
  {
    hide Used, UsedInOrder, LastRank;
    RankInRange(es, i);
    RankInRange(es, j);
    UsedTime(a, b, layer, es, i);
    UsedTime(a, b, layer, es, j);
    UsedStep(layer, es, i, a.blocks.Keys);
    UsedStep(layer, es, j, a.blocks.Keys);
    UsedMono(layer, es, i + 1, j, a.blocks.Keys);
    UsedMono(layer, es, j + 1, |es|, a.blocks.Keys);
    assert es[..|es|] == es;
  }

  lemma RankInRange(es: seq<Int32>, i: int)
    requires LastRank(es, i)
    ensures 0 <= i < |es|
  {
  }

  lemma UsedStep(layer: Int32, es: seq<Int32>, i: nat, resident: set<Key>)
    requires i < |es|
    ensures Used(layer, es[..i + 1], resident) ==
            Used(layer, es[..i], resident) + if Key(layer, es[i]) in resident then 1 else 0
  {
    assert es[..i + 1][..i] == es[..i];
  }

  lemma {:induction false} UsedMono(layer: Int32, es: seq<Int32>, i: nat, j: nat, resident: set<Key>)
    requires i <= j <= |es|
    ensures Used(layer, es[..i], resident) <= Used(layer, es[..j], resident)
    decreases j
  {
    if i < j {
      UsedMono(layer, es, i, j - 1, resident);
      UsedStep(layer, es, j - 1, resident);
    }
  }

  // ---- one layer -------------------------------------------------------------

  /**
   The layer's accumulator is, in rank order, the contribution of exactly those
   predicted experts resident after staging, each computed on its true blob; each
   other prediction bumps the fallback counter once; residency does not change
   while computing; and each contribution is a use of its expert, in rank order.
   */
  lemma LayerOutput<A>(m: Model, s: Prefetcher, layer: Int32, es: seq<Int32>, vss: seq<seq<Key>>,
                       swiglu: (A, seq<Byte>) -> A, zero: A, fallbacks: nat)
    requires EngineInv(m, s) && |es| <= m.topk && |vss| == |es| && StageChoices(m, s, layer, es, vss, |es|)
    ensures var staged := StageTo(m, s, layer, es, vss, |es|);
            var r := ComputeTo(Layer(staged, zero, fallbacks), layer, es, swiglu, |es|);
            var resident := staged.cache.blocks.Keys;
            && EngineInv(m, r.state)
            && r.state.cache.blocks.Keys == resident
            && r.acc == Output(m, layer, es, resident, swiglu, zero)
            && r.fallbacks == fallbacks + Skipped(layer, es, resident)
            && UsedInOrder(staged.cache, r.state.cache, layer, es)
            && r.state.stats.waited == staged.stats.waited + |es|
  {
    hide EngineInv, LatestSource, UsedInOrder;
    var staged := StageTo(m, s, layer, es, vss, |es|);
    StageToInv(m, s, layer, es, vss, |es|);
    forall i | 0 <= i < |es| && Key(layer, es[i]) in staged.cache.blocks
      ensures LatestSource(staged, Key(layer, es[i])).Some?
    {
      StagedHaveSource(m, s, layer, es, vss, |es|, i);
    }
    ComputeToOutput(m, Layer(staged, zero, fallbacks), layer, es, swiglu, |es|);
    ComputeToUses(Layer(staged, zero, fallbacks), layer, es, swiglu, |es|);
    assert es[..|es|] == es;
  }

  // ---- whole runs ----------------------------------------------------------

  datatype Call<!A> =
    | LayerCall(layer: Int32, experts: seq<Int32>, victims: seq<seq<Key>>, swiglu: (A, seq<Byte>) -> A, zero: A)
    | ResetCall

  ghost predicate CallPossible<A>(m: Model, l: Layer<A>, call: Call<A>) {
    match call
    case LayerCall(layer, es, vss, _, _) =>
      |es| <= m.topk && |vss| == |es| && StageChoices(m, l.state, layer, es, vss, |es|)
    case ResetCall => true
  }

  /** What a layer call stages, before it computes. */
  function Staged<A>(m: Model, l: Layer<A>, call: Call<A>): Prefetcher
    requires call.LayerCall? && |call.victims| == |call.experts| <= m.topk
  {
    StageTo(m, l.state, call.layer, call.experts, call.victims, |call.experts|)
  }

  function EngineStep<A>(m: Model, l: Layer<A>, call: Call<A>): Layer<A>
    requires call.LayerCall? ==> |call.victims| == |call.experts| <= m.topk
  {
    match call
    case LayerCall(layer, es, vss, swiglu, zero) =>
      ComputeTo(Layer(Staged(m, l, call), zero, l.fallbacks), layer, es, swiglu, |es|)
    case ResetCall => l.(state := Reset(l.state))
  }

  ghost predicate EngineRun<A>(m: Model, ls: seq<Layer<A>>, calls: seq<Call<A>>) {
    && |ls| == |calls| + 1
    && forall i :: 0 <= i < |calls| ==> CallPossible(m, ls[i], calls[i]) && ls[i + 1] == EngineStep(m, ls[i], calls[i])
  }

  lemma ResetEngineInv(m: Model, s: Prefetcher)
    requires EngineInv(m, s)
    ensures EngineInv(m, Reset(s))
  {
    hide Consistent;
    ResetInv(s, {});
  }

  lemma StartEngineInv(m: Model, s: Prefetcher)
    requires Fresh(s) && m.Valid(s.cache.arena.cap)
    ensures EngineInv(m, s)
  {
    hide PInv;
    StartInv(s);
  }

  lemma EngineStepInv<A>(m: Model, l: Layer<A>, call: Call<A>)
    requires EngineInv(m, l.state) && CallPossible(m, l, call)
    ensures EngineInv(m, EngineStep(m, l, call).state)
  {
    hide EngineInv, StageChoices, ComputeTo, StageTo;
    match call
    case LayerCall(layer, es, vss, swiglu, zero) =>
      LayerOutput(m, l.state, layer, es, vss, swiglu, zero, l.fallbacks);
    case ResetCall => ResetEngineInv(m, l.state);
  }

  lemma {:induction false} EngineRunInv<A>(m: Model, ls: seq<Layer<A>>, calls: seq<Call<A>>, i: nat)
    requires EngineRun(m, ls, calls) && i < |ls| && Fresh(ls[0].state) && m.Valid(ls[0].state.cache.arena.cap)
    ensures EngineInv(m, ls[i].state)
  {
    hide EngineInv, CallPossible, EngineStep, Fresh;
    if i == 0 {
      StartEngineInv(m, ls[0].state);
    } else {
      EngineRunInv(m, ls, calls, i - 1);
      EngineStepInv(m, ls[i - 1], calls[i - 1]);
    }
  }

  lemma UsedTicks(a: Cache, b: Cache, layer: Int32, es: seq<Int32>)
    requires UsedInOrder(a, b, layer, es)
    ensures b.tick == a.tick + |es| - Skipped(layer, es, a.blocks.Keys)
  {
    UsedOrSkipped(layer, es, a.blocks.Keys);
    hide Used;
  }

  /**
   In every run, every layer call outputs the true contributions of its resident predictions,
   counts the others, and leaves the cache it staged with those predictions used in rank order.
   */
  lemma RunOutputs<A>(m: Model, ls: seq<Layer<A>>, calls: seq<Call<A>>, i: nat)
    requires EngineRun(m, ls, calls) && i < |calls| && Fresh(ls[0].state) && m.Valid(ls[0].state.cache.arena.cap)
    requires calls[i].LayerCall?
    ensures var c := calls[i]; var resident := Staged(m, ls[i], c).cache.blocks.Keys;
            && ls[i + 1].acc == Output(m, c.layer, c.experts, resident, c.swiglu, c.zero)
            && ls[i + 1].fallbacks == ls[i].fallbacks + Skipped(c.layer, c.experts, resident)
            && UsedInOrder(Staged(m, ls[i], c).cache, ls[i + 1].state.cache, c.layer, c.experts)
            && ls[i + 1].state.cache.tick ==
               Staged(m, ls[i], c).cache.tick + |c.experts| - Skipped(c.layer, c.experts, resident)
  {
    hide EngineInv, StageChoices, ComputeTo, StageTo, Fresh, UsedInOrder;
    EngineRunInv(m, ls, calls, i);
    var c := calls[i];
    LayerOutput(m, ls[i].state, c.layer, c.experts, c.victims, c.swiglu, c.zero, ls[i].fallbacks);
    UsedTicks(Staged(m, ls[i], c).cache, ls[i + 1].state.cache, c.layer, c.experts);
  }

  /** In every run a reset between calls empties the queue and its index, and leaves everything else alone. */
  lemma RunResets<A>(m: Model, ls: seq<Layer<A>>, calls: seq<Call<A>>, i: nat)
    requires EngineRun(m, ls, calls) && i < |calls| && calls[i].ResetCall?
    ensures var s, t := ls[i].state, ls[i + 1].state;
            && t.queue == [] && t.index == map[]
            && t.cache == s.cache && t.mem == s.mem && t.nextId == s.nextId && t.stats == s.stats
            && ls[i + 1].acc == ls[i].acc && ls[i + 1].fallbacks == ls[i].fallbacks
  {
    hide CallPossible;
  }
}
