/**
 Compute never reads another expert's weights: the main theorem about the cache and
 the prefetcher together, over every run of their operations.
 */
module StaleWeights {
  import opened Wrappers
  import opened Extents
  import opened Memory
  import opened ArenaSpec
  import opened CacheSpec
  import opened PrefetchSpec

  /** The prefetcher's operations, and calls made to the cache behind its back. */
  datatype Op =
    | PrefetchOp(key: Key, src: Option<seq<Byte>>, nbytes: SizeT, priority: Int32, victims: seq<Key>)
    | WaitOp(key: Key)
    | SyncOp
    | ResetOp
    | CacheCall(call: CacheOp)

  /**
   A hit ignores the size it is given, so a copy may be longer than its block. It must
   stay in the arena and clear of the other blocks.
   */
  ghost predicate HitFits(c: Cache, k: Key, n: nat)
    requires k in c.blocks
  {
    && c.blocks[k].off + n <= c.arena.cap
    && forall j :: j in c.blocks && j != k ==> Disjoint(Extent(c.blocks[k].off, n), c.blocks[j].Range())
  }

  /**
   What the code needs of its caller: a source of the stated length, a size that cannot
   overflow, and, for a resident expert, a copy that reaches no other block. `victims`
   is any choice the eviction scan can make.
   */
  ghost predicate Possible(s: Prefetcher, op: Op) {
    match op
    case PrefetchOp(k, src, n, _, vs) =>
      && NoWrap(s.cache, k, n)
      && (src.Some? ==> |src.value| == n)
      && (k in s.cache.blocks ==> HitFits(s.cache, k, n))
      && Choice(s.cache, k, n, vs)
    case CacheCall(call) => CachePossible(s.cache, call)
    case _ => true
  }

  function Step(s: Prefetcher, op: Op): Prefetcher {
    match op
    case PrefetchOp(k, src, n, p, vs) => Prefetch(s, k, src, n, p, vs).0
    case WaitOp(k) => Wait(s, k).0
    case SyncOp => SynchronizeAll(s)
    case ResetOp => Reset(s)
    case CacheCall(call) => s.(cache := CacheStep(s.cache, call))
  }

  ghost predicate Run(ss: seq<Prefetcher>, ops: seq<Op>) {
    && |ss| == |ops| + 1
    && forall i :: 0 <= i < |ops| ==> Possible(ss[i], ops[i]) && ss[i + 1] == Step(ss[i], ops[i])
  }

  ghost predicate Fresh(s: Prefetcher) {
    s == Start(Empty(s.cache.arena.cap), s.mem) && |s.mem| == s.cache.arena.cap
  }

  /** A prefetch of `k` clears `k`; a direct miss, by ensure or sync_fallback, adds it; a reset clears all. */
  function DirectNext(s: Prefetcher, op: Op, direct: set<Key>): set<Key> {
    match op
    case PrefetchOp(k, _, _, _, _) => direct - {k}
    case ResetOp => {}
    case CacheCall(call) => direct + Reserved(s.cache, call)
    case _ => direct
  }

  /** The experts a direct miss has reserved since their last prefetch, or since the last reset. */
  function Direct(ss: seq<Prefetcher>, ops: seq<Op>, i: nat): set<Key>
    requires i <= |ops| && i <= |ss|
  {
    if i == 0 then {} else DirectNext(ss[i - 1], ops[i - 1], Direct(ss, ops, i - 1))
  }

  // ---- every step keeps the invariant ---------------------------------------

  /** What a prefetch queues reaches no block but its own. */
  lemma PrefetchSpares(c: Cache, op: Op)
    requires Inv(c) && op.PrefetchOp? && NoWrap(c, op.key, op.nbytes)
    requires op.key in c.blocks ==> HitFits(c, op.key, op.nbytes)
    requires Ensure(c, op.key, op.nbytes, op.priority, op.victims).1
    ensures var d := Ensure(c, op.key, op.nbytes, op.priority, op.victims).0;
            && op.key in d.blocks && d.blocks[op.key].off + op.nbytes <= c.arena.cap
            && Spares(d.blocks, Transfer(op.key, d.blocks[op.key].off, op.src, op.nbytes, false))
  {
    hide Sound, Ensure;
    EnsureInv(c, op.key, op.nbytes, op.priority, op.victims);
    EnsureFrame(c, op.key, op.nbytes, op.priority, op.victims);
    var d := Ensure(c, op.key, op.nbytes, op.priority, op.victims).0;
    BlockInside(d, op.key);
    assert op.key in c.blocks ==> d.blocks[op.key].Range().off == c.blocks[op.key].Range().off;
  }

  lemma SparesFewer(c: map<Key, Block>, t: Transfer, direct: set<Key>)
    requires Spares(c, t)
    ensures Spares(c - direct, t)
  {
    hide Disjoint;
  }

  lemma EnsureKept(c: Cache, op: Op, direct: set<Key>)
    requires Inv(c) && op.PrefetchOp?
    ensures var d := Ensure(c, op.key, op.nbytes, op.priority, op.victims).0;
            Kept(c.blocks - direct, d.blocks - (direct - {op.key}), op.key)
  {
    hide Sound, Ensure;
    EnsureFrame(c, op.key, op.nbytes, op.priority, op.victims);
  }

  lemma PrefetchInv(s: Prefetcher, op: Op, direct: set<Key>)
    requires Consistent(s, direct) && op.PrefetchOp? && Possible(s, op)
    ensures Consistent(Step(s, op), direct - {op.key})
  {
    hide Sound, Ensure, QInv, Choice, Spares, Kept, HitFits;
    var PrefetchOp(k, src, n, p, vs) := op;
    EnsureInv(s.cache, k, n, p, vs);
    EnsureFrame(s.cache, k, n, p, vs);
    EnsureKept(s.cache, op, direct);
    var (c, ok) := Ensure(s.cache, k, n, p, vs);
    var left := direct - {k};
    if ok {
      PrefetchSpares(s.cache, op);
      var t := Transfer(k, c.blocks[k].off, src, n, false);
      SparesFewer(c.blocks, t, left);
      EnqueueInv(s.cache.blocks - direct, c.blocks - left, s.mem, s.queue, s.index, t);
    } else {
      AbsentKept(s.cache.blocks - direct, c.blocks - left, k);
      ShrinkInv(s.cache.blocks - direct, c.blocks - left, s.mem, s.queue, s.index);
    }
  }

  lemma AbsentKept(c: map<Key, Block>, d: map<Key, Block>, k: Key)
    requires Kept(c, d, k) && k !in d
    ensures forall j :: j in d ==> j in c && d[j].Range() == c[j].Range()
  {
  }

  lemma DrainToInv(s: Prefetcher, n: nat, direct: set<Key>)
    requires Consistent(s, direct) && n <= |s.queue|
    ensures Consistent(DrainTo(s, n), direct)
  {
    hide Sound, QInv, DrainQueue, DrainMem;
    DrainInv(s.cache.blocks - direct, s.mem, s.queue, s.index, n);
  }

  lemma CallInv(s: Prefetcher, call: CacheOp, direct: set<Key>)
    requires Consistent(s, direct) && CachePossible(s.cache, call)
    ensures Consistent(s.(cache := CacheStep(s.cache, call)), direct + Reserved(s.cache, call))
  {
    hide Sound, QInv, CacheStep, CachePossible, Reserved;
    CacheStepInv(s.cache, call);
    var c, d := s.cache.blocks - direct, CacheStep(s.cache, call).blocks - (direct + Reserved(s.cache, call));
    forall j | j in d ensures j in c && d[j].Range() == c[j].Range() {
      CacheStepFrame(s.cache, call, j);
    }
    ShrinkInv(c, d, s.mem, s.queue, s.index);
  }

  lemma ResetInv(s: Prefetcher, direct: set<Key>)
    requires Consistent(s, direct)
    ensures PInv(Reset(s))
  {
    hide Sound;
  }

  lemma WaitInv(s: Prefetcher, k: Key, direct: set<Key>)
    requires Consistent(s, direct)
    ensures Consistent(Wait(s, k).0, direct)
  {
    hide Sound, QInv, DrainTo;
    if Pack(k) in s.index && s.index[Pack(k)] < |s.queue| {
      DrainToInv(s.(stats := s.stats.(waited := s.stats.waited + 1)), s.index[Pack(k)] + 1, direct);
    }
  }

  lemma StepInv(s: Prefetcher, op: Op, direct: set<Key>)
    requires Consistent(s, direct) && Possible(s, op)
    ensures Consistent(Step(s, op), DirectNext(s, op, direct))
  {
    hide Consistent, Prefetch, Wait, Reset, DrainTo, CacheStep, Reserved, CachePossible;
    match op
    case PrefetchOp(_, _, _, _, _) =>
      hide Possible;
      PrefetchInv(s, op, direct);
    case WaitOp(k) => WaitInv(s, k, direct);
    case SyncOp => DrainToInv(s, |s.queue|, direct);
    case ResetOp => ResetInv(s, direct);
    case CacheCall(call) => CallInv(s, call, direct);
  }

  lemma StartInv(s: Prefetcher)
    requires Fresh(s)
    ensures PInv(s)
  {
    EmptyInv(s.cache.arena.cap);
    hide Inv;
  }

  /** In every run the state is consistent, save for experts reserved behind the prefetcher's back. */
  lemma {:induction false} RunInv(ss: seq<Prefetcher>, ops: seq<Op>, i: nat)
    requires Run(ss, ops) && i < |ss| && Fresh(ss[0])
    ensures Consistent(ss[i], Direct(ss, ops, i))
  {
    hide Consistent, Step, Possible, DirectNext;
    if i == 0 {
      StartInv(ss[0]);
    } else {
      RunInv(ss, ops, i - 1);
      StepInv(ss[i - 1], ops[i - 1], Direct(ss, ops, i - 1));
    }
  }

  // ---- settled blocks stay settled ------------------------------------------

  /** `k` is resident, its block starts with `data`, and no pending copy touches the block. */
  ghost predicate Settled(s: Prefetcher, k: Key, data: seq<Byte>) {
    && k in s.cache.blocks && |data| <= s.cache.blocks[k].size
    && Holds(s.mem, s.cache.blocks[k].off, data)
    && forall j :: 0 <= j < |s.queue| && s.queue[j].Ready() ==>
         Disjoint(s.queue[j].Range(), s.cache.blocks[k].Range())
  }

  /** The source of the latest copy queued for `k`; `Some(None)` is a null source. */
  function LatestSource(s: Prefetcher, k: Key): Option<Option<seq<Byte>>> {
    if Pack(k) in s.index && s.index[Pack(k)] < |s.queue| then Some(s.queue[s.index[Pack(k)]].src) else None
  }

  /** What of the latest source of `k` its block can hold. */
  function Loaded(s: Prefetcher, k: Key): seq<Byte>
    requires k in s.cache.blocks && LatestSource(s, k).Some? && LatestSource(s, k).value.Some?
  {
    Fit(LatestSource(s, k).value.value, s.cache.blocks[k].size)
  }

  /** When `Wait` reports ready and the expert is resident, its block is settled on its latest source. */
  lemma WaitSettles(s: Prefetcher, k: Key, direct: set<Key>)
    requires Consistent(s, direct) && Wait(s, k).1 && k in s.cache.blocks && k !in direct
    ensures LatestSource(s, k).Some? && LatestSource(s, k).value.Some?
    ensures Settled(Wait(s, k).0, k, Loaded(s, k))
  {
    var i := s.index[Pack(k)];
    var n := i + 1;
    var owned := s.cache.blocks - direct;
    hide Sound, Holds, DrainMem, Pack, Fit;
    DrainFilled(owned, s.mem, s.queue, s.index, n, k);
    DrainedPrefix(s.queue, n);
    var w := Wait(s, k).0;
    forall j | 0 <= j < |w.queue| && w.queue[j].Ready()
      ensures Disjoint(w.queue[j].Range(), s.cache.blocks[k].Range())
    {
      assert Latest(s.index, k) < j;
      assert w.queue[j].Range() == s.queue[j].Range();
      assert k in owned;
    }
  }

  /** `Wait` reports ready exactly for experts with a non-null source queued since the last reset. */
  lemma WaitReadyIff(s: Prefetcher, k: Key)
    requires QueueOk(s.queue, |s.mem|)
    ensures Wait(s, k).1 <==> LatestSource(s, k).Some? && LatestSource(s, k).value.Some?
  {
    hide DrainMem, Pack;
  }

  lemma ConsistentQueue(s: Prefetcher, direct: set<Key>)
    requires Consistent(s, direct)
    ensures QueueOk(s.queue, |s.mem|) && DonePrefix(s.queue) && IndexOk(s.queue, s.index)
  {
    hide Inv, Guarded, Aimed, Filled;
  }

  lemma DrainKeepsSettled(s: Prefetcher, n: nat, k: Key, data: seq<Byte>)
    requires QueueOk(s.queue, |s.mem|) && n <= |s.queue| && Settled(s, k, data)
    ensures Settled(DrainTo(s, n), k, data)
  {
    hide Holds, DrainMem;
    DrainKeeps(s.queue, s.mem, n, s.cache.blocks[k].off, data);
  }

  /** A copy into a disjoint block may be queued behind a settled one. */
  lemma EnqueueKeepsSettled(s: Prefetcher, c: Cache, t: Transfer, k: Key, data: seq<Byte>)
    requires Settled(s, k, data) && k in c.blocks && c.blocks[k].Range() == s.cache.blocks[k].Range()
    requires Disjoint(t.Range(), c.blocks[k].Range())
    ensures Settled(Enqueue(s.(cache := c), t), k, data)
  {
    hide Holds, Pack, Disjoint;
    assert c.blocks[k].off == c.blocks[k].Range().off && c.blocks[k].size == c.blocks[k].Range().size;
    assert s.cache.blocks[k].off == s.cache.blocks[k].Range().off;
  }

  lemma StepCache(s: Prefetcher, op: Op)
    requires op.PrefetchOp?
    ensures Step(s, op).cache == Ensure(s.cache, op.key, op.nbytes, op.priority, op.victims).0
  {
    hide Ensure;
  }

  lemma PrefetchKeepsSettled(s: Prefetcher, op: Op, k: Key, data: seq<Byte>)
    requires Inv(s.cache) && op.PrefetchOp? && op.key != k && Possible(s, op) && Settled(s, k, data)
    requires k in Step(s, op).cache.blocks
    ensures Settled(Step(s, op), k, data)
  {
    hide Sound, Ensure, Choice, Holds, Enqueue, HitFits;
    var PrefetchOp(j, src, n, p, vs) := op;
    EnsureFrame(s.cache, j, n, p, vs);
    StepCache(s, op);
    var (c, ok) := Ensure(s.cache, j, n, p, vs);
    if ok {
      PrefetchSpares(s.cache, op);
      EnqueueKeepsSettled(s, c, Transfer(j, c.blocks[j].off, src, n, false), k, data);
    }
  }

  /** The steps that give `k` another block, or another copy: its own prefetch or a direct miss. */
  predicate Renews(s: Prefetcher, op: Op, k: Key) {
    (op.PrefetchOp? && op.key == k) || (op.CacheCall? && k in Reserved(s.cache, op.call))
  }

  lemma CallKeepsSettled(s: Prefetcher, call: CacheOp, k: Key, data: seq<Byte>)
    requires Inv(s.cache) && Settled(s, k, data) && k in CacheStep(s.cache, call).blocks
    ensures Settled(s.(cache := CacheStep(s.cache, call)), k, data)
  {
    hide Inv, Holds, Disjoint, CacheStep;
    CacheStepFrame(s.cache, call, k);
    var b, d := s.cache.blocks[k], CacheStep(s.cache, call).blocks[k];
    assert b.off == b.Range().off && b.size == b.Range().size && d.off == d.Range().off && d.size == d.Range().size;
  }

  /** No operation but another prefetch of `k` unsettles `k`; it can only be evicted. */
  lemma StepKeepsSettled(s: Prefetcher, op: Op, k: Key, data: seq<Byte>, direct: set<Key>)
    requires Consistent(s, direct) && Possible(s, op) && Settled(s, k, data)
    requires !(op.PrefetchOp? && op.key == k)
    ensures k in Step(s, op).cache.blocks ==> Settled(Step(s, op), k, data)
  {
    hide Inv, Settled, DrainTo, QInv, Prefetch, CacheStep, Reset;
    ConsistentQueue(s, direct);
    match op
    case PrefetchOp(_, _, _, _, _) =>
      hide Possible;
      if k in Step(s, op).cache.blocks { PrefetchKeepsSettled(s, op, k, data); }
    case WaitOp(j) =>
      var w := s.(stats := s.stats.(waited := s.stats.waited + 1));
      StatsKeepSettled(s, w, k, data);
      if Pack(j) in s.index && s.index[Pack(j)] < |s.queue| {
        DrainKeepsSettled(w, s.index[Pack(j)] + 1, k, data);
      } else {
        StatsKeepSettled(s, Wait(s, j).0, k, data);
      }
    case SyncOp => DrainKeepsSettled(s, |s.queue|, k, data);
    case ResetOp => ResetKeepsSettled(s, k, data);
    case CacheCall(call) =>
      hide Possible;
      if k in CacheStep(s.cache, call).blocks { CallKeepsSettled(s, call, k, data); }
  }

  lemma StatsKeepSettled(s: Prefetcher, t: Prefetcher, k: Key, data: seq<Byte>)
    requires Settled(s, k, data) && t.cache == s.cache && t.mem == s.mem && t.queue == s.queue
    ensures Settled(t, k, data)
  {
    hide Holds, Disjoint;
  }

  lemma ResetKeepsSettled(s: Prefetcher, k: Key, data: seq<Byte>)
    requires Settled(s, k, data)
    ensures Settled(Reset(s), k, data)
  {
    hide Holds;
  }

  /** Only a prefetch of `k` or a direct miss makes `k` resident. */
  lemma StepKeepsAbsent(s: Prefetcher, op: Op, k: Key)
    requires Inv(s.cache) && k !in s.cache.blocks && !Renews(s, op, k)
    ensures k !in Step(s, op).cache.blocks
  {
    hide Inv, Ensure, CacheStep;
    match op
    case PrefetchOp(j, src, n, p, vs) => EnsureFrame(s.cache, j, n, p, vs);
    case CacheCall(call) => if k in CacheStep(s.cache, call).blocks { CacheStepFrame(s.cache, call, k); }
    case _ =>
  }

  // ---- the trace of calls -----------------------------------------------------

  /** The source named by the last prefetch of `k` among `ops`. */
  function LastPrefetched(ops: seq<Op>, k: Key): Option<Option<seq<Byte>>> {
    if ops == [] then None
    else
      var op := ops[|ops| - 1];
      if op.PrefetchOp? && op.key == k then Some(op.src) else LastPrefetched(ops[..|ops| - 1], k)
  }

  /** The queue remembers, for every resident expert it knows, the last source the caller named. */
  ghost predicate Traced(s: Prefetcher, ops: seq<Op>, direct: set<Key>) {
    forall k :: k in s.cache.blocks && k !in direct && LatestSource(s, k).Some? ==>
      LastPrefetched(ops, k) == LatestSource(s, k)
  }

  lemma StepSource(s: Prefetcher, op: Op, k: Key)
    requires IndexOk(s.queue, s.index) && !(op.PrefetchOp? && op.key == k)
    ensures LatestSource(Step(s, op), k).Some? ==> LatestSource(Step(s, op), k) == LatestSource(s, k)
  {
    match op
    case PrefetchOp(j, src, n, p, vs) =>
      if Pack(j) == Pack(k) { PackInjective(j, k); }
      hide Ensure, Pack;
    case _ => hide Pack, DrainMem, CacheStep;
  }

  lemma PrefetchSource(s: Prefetcher, op: Op)
    requires Inv(s.cache) && op.PrefetchOp? && op.key in Step(s, op).cache.blocks
    ensures LatestSource(Step(s, op), op.key) == Some(op.src)
  {
    hide Sound, Ensure, Pack;
    EnsureFrame(s.cache, op.key, op.nbytes, op.priority, op.victims);
  }

  lemma StepTraced(s: Prefetcher, ops: seq<Op>, op: Op, direct: set<Key>)
    requires Consistent(s, direct) && Traced(s, ops, direct)
    ensures Traced(Step(s, op), ops + [op], DirectNext(s, op, direct))
  {
    hide Inv, QInv, Step, LatestSource, Reserved;
    ConsistentQueue(s, direct);
    hide IndexOk;
    var t := Step(s, op);
    assert (ops + [op])[..|ops|] == ops;
    forall k | k in t.cache.blocks && k !in DirectNext(s, op, direct) && LatestSource(t, k).Some?
      ensures LastPrefetched(ops + [op], k) == LatestSource(t, k)
    {
      if op.PrefetchOp? && op.key == k {
        PrefetchSource(s, op);
      } else {
        StepSource(s, op, k);
        if op == ResetOp {
          ResetForgets(s, k);
        } else if k !in s.cache.blocks {
          StepKeepsAbsent(s, op, k);
        }
      }
    }
  }

  lemma ResetForgets(s: Prefetcher, k: Key)
    ensures LatestSource(Step(s, ResetOp), k).None?
  {
  }

  lemma {:induction false} RunTraced(ss: seq<Prefetcher>, ops: seq<Op>, i: nat)
    requires Run(ss, ops) && i < |ss| && Fresh(ss[0])
    ensures Traced(ss[i], ops[..i], Direct(ss, ops, i))
  {
    hide Consistent, Step, Possible, Traced, DirectNext;
    if i == 0 {
      TracedStart(ss[0], ops[..0]);
    } else {
      RunTraced(ss, ops, i - 1);
      RunInv(ss, ops, i - 1);
      StepTraced(ss[i - 1], ops[..i - 1], ops[i - 1], Direct(ss, ops, i - 1));
      assert ops[..i] == ops[..i - 1] + [ops[i - 1]];
    }
  }

  lemma TracedStart(s: Prefetcher, ops: seq<Op>)
    requires Fresh(s)
    ensures Traced(s, ops, {})
  {
  }

  lemma {:induction false} RunKeepsSettled(ss: seq<Prefetcher>, ops: seq<Op>, i: nat, j: nat, k: Key, data: seq<Byte>)
    requires Run(ss, ops) && Fresh(ss[0]) && i <= j < |ss| && Settled(ss[i], k, data)
    requires forall m :: i <= m < j ==> !Renews(ss[m], ops[m], k)
    ensures k in ss[j].cache.blocks ==> Settled(ss[j], k, data)
    decreases j
  {
    hide Step, Possible, Settled, Inv, QInv;
    if i < j {
      RunKeepsSettled(ss, ops, i, j - 1, k, data);
      RunInv(ss, ops, j - 1);
      if k in ss[j - 1].cache.blocks {
        StepKeepsSettled(ss[j - 1], ops[j - 1], k, data, Direct(ss, ops, j - 1));
      } else {
        StepKeepsAbsent(ss[j - 1], ops[j - 1], k);
      }
    }
  }

  lemma WaitFrame(s: Prefetcher, k: Key)
    ensures Wait(s, k).0.cache == s.cache
  {
  }

  /**
   No stale weights. In every run, if the wait for `k` at step i reports ready with `k`
   resident, and no direct miss has reserved its block since its last prefetch, then until
   `k` is prefetched or reserved again, at every step where `k` is resident its block holds
   exactly the bytes its last prefetch before the wait named, whatever is prefetched,
   drained, evicted, dropped, reused or reserved directly for other experts in between.
   */
  lemma NoStaleWeights(ss: seq<Prefetcher>, ops: seq<Op>, i: nat, j: nat, k: Key)
    requires Run(ss, ops) && Fresh(ss[0]) && i < j < |ss|
    requires ops[i] == WaitOp(k) && Wait(ss[i], k).1 && k in ss[i + 1].cache.blocks
    requires k !in Direct(ss, ops, i)
    requires forall m :: i < m < j ==> !Renews(ss[m], ops[m], k)
    requires k in ss[j].cache.blocks
    ensures var src := LastPrefetched(ops[..i], k);
            && src.Some? && src.value.Some?
            && Holds(ss[j].mem, ss[j].cache.blocks[k].off, Fit(src.value.value, ss[j].cache.blocks[k].size))
  {
    hide Consistent, Wait, Possible, Traced, Direct, Fit;
    RunInv(ss, ops, i);
    RunTraced(ss, ops, i);
    WaitFrame(ss[i], k);
    WaitSettles(ss[i], k, Direct(ss, ops, i));
    TracedAt(ss[i], ops[..i], k, Direct(ss, ops, i));
    RunKeepsSettled(ss, ops, i + 1, j, k, Loaded(ss[i], k));
    RunKeepsPlace(ss, ops, i + 1, j, k);
  }

  lemma TracedAt(s: Prefetcher, ops: seq<Op>, k: Key, direct: set<Key>)
    requires Traced(s, ops, direct) && k in s.cache.blocks && k !in direct && LatestSource(s, k).Some?
    ensures LastPrefetched(ops, k) == LatestSource(s, k)
  {
  }

  lemma StepKeepsPlace(s: Prefetcher, op: Op, k: Key)
    requires Inv(s.cache) && k in s.cache.blocks && k in Step(s, op).cache.blocks
    ensures Step(s, op).cache.blocks[k].Range() == s.cache.blocks[k].Range()
  {
    hide Inv, Ensure, CacheStep;
    match op
    case PrefetchOp(j, src, n, p, vs) => EnsureFrame(s.cache, j, n, p, vs);
    case CacheCall(call) => CacheStepFrame(s.cache, call, k);
    case _ =>
  }

  /** A block stays where it is for as long as its expert stays resident. */
  lemma {:induction false} RunKeepsPlace(ss: seq<Prefetcher>, ops: seq<Op>, i: nat, j: nat, k: Key)
    requires Run(ss, ops) && Fresh(ss[0]) && i <= j < |ss|
    requires k in ss[i].cache.blocks && k in ss[j].cache.blocks
    requires forall m :: i <= m < j ==> !Renews(ss[m], ops[m], k)
    ensures ss[j].cache.blocks[k].Range() == ss[i].cache.blocks[k].Range()
    decreases j
  {
    hide Step, Possible, Inv, QInv;
    if i < j {
      RunInv(ss, ops, j - 1);
      if k in ss[j - 1].cache.blocks {
        RunKeepsPlace(ss, ops, i, j - 1, k);
        StepKeepsPlace(ss[j - 1], ops[j - 1], k);
      } else {
        StepKeepsAbsent(ss[j - 1], ops[j - 1], k);
      }
    }
  }
}
