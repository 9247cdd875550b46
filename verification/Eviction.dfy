/** Which blocks an eviction removes: evict_until_free and eviction_score (dee.cpp/src/vram_cache.cpp). */
module Eviction {
  import opened ArenaSpec
  import opened CacheSpec
  import opened Maps

  /** Each victim was resident, and the survivors are exactly the blocks not named. */
  lemma {:induction false} VictimsAreBlocks(c: Cache, need: nat, vs: seq<Key>, k: Key)
    requires Victims(c, need, vs)
    ensures k in EvictAll(c, vs).blocks <==> k in c.blocks && k !in vs
    ensures k in EvictAll(c, vs).blocks ==> EvictAll(c, vs).blocks[k] == c.blocks[k]
    ensures k in vs ==> k in c.blocks
    decreases vs
  {
    hide Free, IsVictim;
    if vs != [] {
      IsVictimIn(c.blocks, vs[0]);
      VictimsAreBlocks(Evict(c, vs[0]), need, vs[1..], k);
      assert vs == [vs[0]] + vs[1..];
    }
  }

  /** Each eviction removes one block and is counted once. */
  lemma {:induction false} VictimsCounted(c: Cache, need: nat, vs: seq<Key>)
    requires Victims(c, need, vs)
    ensures |EvictAll(c, vs).blocks| + |vs| == |c.blocks|
    ensures EvictAll(c, vs).stats.evictions == c.stats.evictions + |vs|
    decreases vs
  {
    hide Free, IsVictim;
    if vs != [] {
      IsVictimIn(c.blocks, vs[0]);
      SizeRemove(c.blocks, vs[0]);
      VictimsCounted(Evict(c, vs[0]), need, vs[1..]);
    }
  }

  /** Every block evicted scores no more than every block that survives. */
  lemma {:induction false} VictimsScoreLowest(c: Cache, need: nat, vs: seq<Key>, v: Key, k: Key)
    requires Victims(c, need, vs) && v in vs && k in EvictAll(c, vs).blocks
    ensures v in c.blocks && k in c.blocks && c.blocks[v].Score() <= c.blocks[k].Score()
    decreases vs
  {
    hide Free;
    VictimsAreBlocks(c, need, vs, v);
    VictimsAreBlocks(c, need, vs, k);
    if v != vs[0] {
      VictimsScoreLowest(Evict(c, vs[0]), need, vs[1..], v, k);
    }
  }

  /** Eviction stops at the first point where `need` bytes are free, or with nothing left to evict. */
  lemma {:induction false} VictimsStopEarly(c: Cache, need: nat, vs: seq<Key>, i: nat)
    requires Victims(c, need, vs) && i <= |vs|
    ensures i < |vs| ==> EvictAll(c, vs[..i]).arena.FreeSpace() < need
    ensures i == |vs| ==>
              EvictAll(c, vs[..i]).arena.FreeSpace() >= need || EvictAll(c, vs[..i]).blocks == map[]
    decreases vs
  {
    hide Free;
    if i > 0 {
      VictimsStopEarly(Evict(c, vs[0]), need, vs[1..], i - 1);
      assert vs[..i][1..] == vs[1..][..i - 1];
    }
  }

  // ---- the score against the intended (priority, recency) order ---------------

  predicate LexLess(a: Block, b: Block) {
    a.priority < b.priority || (a.priority == b.priority && a.lastUsed < b.lastUsed)
  }

  /** Up to tick 2^20 the score orders blocks exactly by priority, then by recency. */
  lemma ScoreIsLexicographic(a: Block, b: Block, tick: nat)
    requires 1 <= a.lastUsed <= tick && 1 <= b.lastUsed <= tick
    requires tick <= PRIORITY_WEIGHT
    ensures a.Score() < b.Score() <==> LexLess(a, b)
  {
    if a.priority < b.priority {
      assert a.priority + 1 <= b.priority;
    } else if b.priority < a.priority {
      assert b.priority + 1 <= a.priority;
    }
  }

  ghost predicate ScoreAgreesUpTo(tick: nat) {
    forall a: Block, b: Block :: 1 <= a.lastUsed <= tick && 1 <= b.lastUsed <= tick ==>
      (a.Score() < b.Score() <==> LexLess(a, b))
  }

  /** The bound is exact: one tick later a recent block of lower priority ties with an older, higher one. */
  lemma ScoreAgreesExactly(tick: nat)
    ensures ScoreAgreesUpTo(tick) <==> tick <= 1_048_576
  {
    if tick <= PRIORITY_WEIGHT {
      forall a: Block, b: Block | 1 <= a.lastUsed <= tick && 1 <= b.lastUsed <= tick
        ensures a.Score() < b.Score() <==> LexLess(a, b)
      {
        ScoreIsLexicographic(a, b, tick);
      }
    } else {
      var older, recent := Block(0, 1, 1, 1), Block(1, 1, PRIORITY_WEIGHT + 1, 0);
      assert LexLess(recent, older) && recent.Score() == older.Score();
    }
  }

  lemma VictimUnique(c: Cache, j: Key, k: Key)
    requires Inv(c) && c.tick <= PRIORITY_WEIGHT
    requires IsVictim(c.blocks, j) && IsVictim(c.blocks, k)
    ensures j == k
  {
    hide Tiles;
    if j != k {
      ScoreIsLexicographic(c.blocks[j], c.blocks[k], c.tick);
      ScoreIsLexicographic(c.blocks[k], c.blocks[j], c.tick);
    }
  }

  /** Up to tick 2^20 the evictions do not depend on the order of the hash map. */
  lemma {:induction false} VictimsUnique(c: Cache, need: nat, vs: seq<Key>, ws: seq<Key>)
    requires Inv(c) && c.tick <= PRIORITY_WEIGHT
    requires Victims(c, need, vs) && Victims(c, need, ws)
    ensures vs == ws
    decreases vs
  {
    hide Inv, IsVictim, Free;
    if vs != [] {
      VictimUnique(c, vs[0], ws[0]);
      IsVictimIn(c.blocks, vs[0]);
      EvictInv(c, vs[0]);
      VictimsUnique(Evict(c, vs[0]), need, vs[1..], ws[1..]);
      assert vs == [vs[0]] + vs[1..] && ws == [ws[0]] + ws[1..];
    }
  }
}
