/** A run in which the score evicts the higher priority first (dee.cpp/include/dee/vram_cache.h). */
module EvictionLimits {
  import opened Extents
  import opened ArenaSpec
  import opened CacheSpec

  const HIGH: Key := Key(0, 0)
  const LOW: Key := Key(0, 1)
  const NEW: Key := Key(0, 2)

  /** `n` touches of the same expert. */
  function Touched(c: Cache, k: Key, n: nat): Cache { if n == 0 then c else Touch(Touched(c, k, n - 1), k) }

  lemma {:induction false} TouchedIs(c: Cache, k: Key, n: nat)
    requires k in c.blocks && n > 0
    ensures Touched(c, k, n) == c.(tick := c.tick + n, blocks := c.blocks[k := c.blocks[k].(lastUsed := c.tick + n)])
  {
    if n > 1 { TouchedIs(c, k, n - 1); }
  }

  /** Two one-byte experts in two bytes: HIGH with priority 1, then LOW with priority 0. */
  function TwoBlocks(): Cache { Ensure(Ensure(Empty(2), HIGH, 1, 1, []).0, LOW, 1, 0, []).0 }

  lemma TwoBlocksIs()
    ensures var c := TwoBlocks();
            && c.arena == ArenaState(2, 2, 2, []) && c.tick == 2
            && c.blocks == map[HIGH := Block(0, 1, 1, 1), LOW := Block(1, 1, 2, 0)]
  {
    var c := Ensure(Empty(2), HIGH, 1, 1, []).0;
    assert c.arena == ArenaState(2, 1, 1, []) && c.blocks == map[HIGH := Block(0, 1, 1, 1)] && c.tick == 1;
  }

  lemma FreeFirst()
    ensures Free(ArenaState(2, 2, 2, []), 0, 1) == ArenaState(2, 1, 2, [Extent(0, 1)])
  {
    assert Insert([], Extent(0, 1)) == [Extent(0, 1)];
    assert Coalesce([Extent(0, 1)]) == [Extent(0, 1)];
  }

  lemma EvictHigh(c: Cache, t: nat)
    requires c.arena == ArenaState(2, 2, 2, []) && t >= PRIORITY_WEIGHT + 1
    requires c.blocks == map[HIGH := Block(0, 1, 1, 1), LOW := Block(1, 1, t, 0)]
    ensures Victims(c, 1, [HIGH])
    ensures EvictAll(c, [HIGH]).blocks == map[LOW := Block(1, 1, t, 0)]
  {
    hide Free;
    FreeFirst();
    var d := Evict(c, HIGH);
    assert d.blocks == map[LOW := Block(1, 1, t, 0)];
    assert [HIGH][1..] == [];
    assert Victims(d, 1, []);
    assert EvictAll(c, [HIGH]) == EvictAll(d, []) == d;
  }

  /**
   Touch LOW `n` times: a request for a third expert may evict HIGH exactly from n = 2^20 - 1
   on, that is when the clock has passed 2^20.
   */
  lemma HighEvictedFirstIff(n: nat)
    requires n > 0
    ensures var c := Touched(TwoBlocks(), LOW, n);
            && c.tick == n + 2 && HIGH in c.blocks && LOW in c.blocks
            && c.blocks[HIGH].priority > c.blocks[LOW].priority
            && (IsVictim(c.blocks, HIGH) <==> c.tick > PRIORITY_WEIGHT)
            && (c.tick > PRIORITY_WEIGHT ==>
                && Choice(c, NEW, 1, [HIGH])
                && HIGH !in EvictAll(c, [HIGH]).blocks && LOW in EvictAll(c, [HIGH]).blocks)
  {
    hide TwoBlocks, Touched, EvictAll, Victims;
    TwoBlocksIs();
    TouchedIs(TwoBlocks(), LOW, n);
    var c := Touched(TwoBlocks(), LOW, n);
    assert c.blocks == map[HIGH := Block(0, 1, 1, 1), LOW := Block(1, 1, n + 2, 0)];
    if c.tick > PRIORITY_WEIGHT {
      EvictHigh(c, n + 2);
      EvictHigh(Request(c), n + 2);
    }
  }
}
