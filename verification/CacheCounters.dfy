/** What the counters of the byte cache count, for any sizes and any calls (dee.cpp/src/vram_cache.cpp). */
module CacheCounters {
  import opened ArenaSpec
  import opened CacheSpec
  import opened Eviction
  import opened Maps

  // ---- one call ----------------------------------------------------------

  /**
   A request is counted once, and once more as a hit or, if it succeeds on a miss, as a load.
   Blocks are conserved: those there before and those loaded are there now or were evicted.
   A failed request leaves the clock alone.
   */
  lemma EnsureCounts(c: Cache, k: Key, n: SizeT, priority: Int32, vs: seq<Key>)
    requires Inv(c) && Choice(c, k, n, vs)
    ensures var (d, ok) := Ensure(c, k, n, priority, vs); var load := if k !in c.blocks && ok then 1 else 0;
            && d.stats.requests == c.stats.requests + 1
            && d.stats.hits == c.stats.hits + (if k in c.blocks then 1 else 0)
            && d.stats.loads == c.stats.loads + load
            && d.stats.fallbacks == c.stats.fallbacks
            && |c.blocks| + load == |d.blocks| + (d.stats.evictions - c.stats.evictions)
            && c.stats.evictions <= d.stats.evictions
            && d.tick == c.tick + (if ok then 1 else 0)
  {
    hide Sound, Victims, EvictAll, Alloc;
    var d := Ensure(c, k, n, priority, vs).0;
    if k in c.blocks {
      assert d.blocks.Keys == c.blocks.Keys;
      SameKeysSameSize(c.blocks, d.blocks);
    } else {
      var e := EvictAll(Request(c), vs);
      VictimsCounted(Request(c), n, vs);
      EvictAllInv(Request(c), vs);
      EvictKeepsCounters(Request(c), vs);
      var (f, ok) := Place(e, k, n, priority);
      if ok { SizeInsert(e.blocks, k, f.blocks[k]); }
    }
  }

  lemma SameKeysSameSize(a: map<Key, Block>, b: map<Key, Block>)
    requires a.Keys == b.Keys
    ensures |a| == |b|
  {
    assert |a| == |a.Keys| && |b| == |b.Keys|;
  }

  lemma {:induction false} EvictKeepsCounters(c: Cache, vs: seq<Key>)
    ensures var d := EvictAll(c, vs);
            d.stats == c.stats.(evictions := d.stats.evictions)
    decreases vs
  {
    hide Free;
    if vs != [] && vs[0] in c.blocks { EvictKeepsCounters(Evict(c, vs[0]), vs[1..]); }
  }

  /** A fallback for a resident expert does nothing; for another it is counted and is then a request like any. */
  lemma FallbackIsRequest(c: Cache, k: Key, n: SizeT, priority: Int32, vs: seq<Key>)
    ensures k in c.blocks ==> SyncFallback(c, k, n, priority, vs) == (c, true)
    ensures k !in c.blocks ==>
              var (d, ok) := Ensure(c, k, n, priority, vs); var (e, fine) := SyncFallback(c, k, n, priority, vs);
              fine == ok && e == d.(stats := d.stats.(fallbacks := d.stats.fallbacks + 1))
  {
    if k !in c.blocks {
      hide Alloc, Free;
      EvictAllCounted(Request(c), vs);
    }
  }

  /** Evicting does not look at the fallback counter. */
  lemma {:induction false} EvictAllCounted(c: Cache, vs: seq<Key>)
    ensures var f := c.(stats := c.stats.(fallbacks := c.stats.fallbacks + 1)); var d := EvictAll(c, vs);
            EvictAll(f, vs) == d.(stats := d.stats.(fallbacks := d.stats.fallbacks + 1))
    decreases vs
  {
    hide Free;
    if vs != [] && vs[0] in c.blocks { EvictAllCounted(Evict(c, vs[0]), vs[1..]); }
  }

  /** Touching counts nothing, and advances the clock exactly for a resident expert. */
  lemma TouchCounts(c: Cache, k: Key)
    ensures Touch(c, k).stats == c.stats && Touch(c, k).tick == c.tick + if k in c.blocks then 1 else 0
  {
  }

  /** Clearing keeps the counters and the high-water mark, and frees everything else. */
  lemma ClearKeeps(c: Cache)
    ensures var d := Clear(c);
            && d.stats == c.stats && d.blocks == map[] && d.tick == 0
            && d.arena.cap == c.arena.cap && d.arena.high == c.arena.high && d.arena.FreeSpace() == c.arena.cap
  {
  }

  // ---- whole runs ----------------------------------------------------------

  datatype Totals = Totals(requests: nat, hits: nat, loads: nat, fallbacks: nat, cleared: nat)

  /** What one call adds, in terms of who is resident before and after it. */
  function Added(c: Cache, op: CacheOp, d: Cache): Totals {
    match op
    case Ensuring(k, _, _, _) =>
      Totals(1, if k in c.blocks then 1 else 0, if k !in c.blocks && k in d.blocks then 1 else 0, 0, 0)
    case FallingBack(k, _, _, _) =>
      if k in c.blocks then Totals(0, 0, 0, 0, 0) else Totals(1, 0, if k in d.blocks then 1 else 0, 1, 0)
    case Touching(_) => Totals(0, 0, 0, 0, 0)
    case Clearing => Totals(0, 0, 0, 0, |c.blocks|)
  }

  function Sums(a: Totals, b: Totals): Totals {
    Totals(a.requests + b.requests, a.hits + b.hits, a.loads + b.loads, a.fallbacks + b.fallbacks,
           a.cleared + b.cleared)
  }

  function RunTotals(cs: seq<Cache>, ops: seq<CacheOp>, i: nat): Totals
    requires i <= |ops| && i < |cs|
  {
    if i == 0 then Totals(0, 0, 0, 0, 0) else Sums(RunTotals(cs, ops, i - 1), Added(cs[i - 1], ops[i - 1], cs[i]))
  }

  /** The counters show these totals, and every load is resident, was evicted, or was cleared. */
  ghost predicate Shows(c: Cache, t: Totals) {
    && c.stats.requests == t.requests && c.stats.hits == t.hits && c.stats.loads == t.loads
    && c.stats.fallbacks == t.fallbacks
    && c.stats.loads == |c.blocks| + c.stats.evictions + t.cleared
  }

  lemma EnsureShows(c: Cache, k: Key, n: SizeT, priority: Int32, vs: seq<Key>, t: Totals)
    requires Inv(c) && Choice(c, k, n, vs) && Shows(c, t)
    ensures var d := Ensure(c, k, n, priority, vs).0;
            Shows(d, Sums(t, Added(c, Ensuring(k, n, priority, vs), d)))
  {
    hide Inv, Choice, Ensure;
    EnsureCounts(c, k, n, priority, vs);
    EnsureFrame(c, k, n, priority, vs);
  }

  lemma FallbackChoice(c: Cache, k: Key, n: nat, vs: seq<Key>)
    requires Choice(c.(stats := c.stats.(fallbacks := c.stats.fallbacks + 1)), k, n, vs)
    ensures Choice(c, k, n, vs)
  {
    var f := c.(stats := c.stats.(fallbacks := c.stats.fallbacks + 1));
    if k !in c.blocks { VictimsSameStats(Request(f), Request(c), n, vs); }
  }

  /** Who is evicted does not depend on the counters. */
  lemma {:induction false} VictimsSameStats(c: Cache, d: Cache, n: nat, vs: seq<Key>)
    requires Victims(c, n, vs) && d.arena == c.arena && d.blocks == c.blocks
    ensures Victims(d, n, vs)
    decreases vs
  {
    hide Free, IsVictim;
    if vs != [] {
      IsVictimIn(c.blocks, vs[0]);
      VictimsSameStats(Evict(c, vs[0]), Evict(d, vs[0]), n, vs[1..]);
    }
  }

  lemma StepShows(c: Cache, op: CacheOp, t: Totals)
    requires Inv(c) && CachePossible(c, op) && Shows(c, t)
    ensures Shows(CacheStep(c, op), Sums(t, Added(c, op, CacheStep(c, op))))
  {
    hide Inv, Victims, Choice, Ensure, SyncFallback;
    match op
    case Ensuring(k, n, p, vs) => EnsureShows(c, k, n, p, vs, t);
    case FallingBack(k, n, p, vs) =>
      FallbackChoice(c, k, n, vs);
      FallbackIsRequest(c, k, n, p, vs);
      if k !in c.blocks {
        EnsureShows(c, k, n, p, vs, t);
        EnsureFrame(c, k, n, p, vs);
      }
    case Touching(k) =>
      TouchCounts(c, k);
      assert Touch(c, k).blocks.Keys == c.blocks.Keys;
      SameKeysSameSize(c.blocks, Touch(c, k).blocks);
    case Clearing =>
  }

  /**
   In every run, whatever the sizes and with clears: requests, hits, loads and fallbacks are
   those that happened, and loads = resident + evicted + cleared.
   */
  lemma {:induction false} RunShows(cs: seq<Cache>, ops: seq<CacheOp>, i: nat)
    requires CacheRun(cs, ops) && i < |cs| && cs[0] == Empty(cs[0].arena.cap)
    ensures Shows(cs[i], RunTotals(cs, ops, i))
  {
    if i > 0 {
      hide Inv, Shows, CacheStep, CachePossible, Added;
      RunShows(cs, ops, i - 1);
      CacheRunInv(cs, ops, i - 1);
      StepShows(cs[i - 1], ops[i - 1], RunTotals(cs, ops, i - 1));
    }
  }
}
