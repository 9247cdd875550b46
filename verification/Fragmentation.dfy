/**
 Exactly when a request succeeds, whatever the sizes: eviction counts free bytes, while
 an allocation needs them consecutive and on one side of the high-water mark
 (dee.cpp/src/vram_cache.cpp).
 */
module Fragmentation {
  import opened Extents
  import opened ArenaSpec
  import opened CacheSpec
  import opened Eviction

  /** The blocks left once those of `vs` are evicted. */
  ghost function Survivors(blocks: map<Key, Block>, vs: seq<Key>): set<Extent> {
    set k | k in blocks && k !in vs :: blocks[k].Range()
  }

  lemma SurvivorsLive(c: Cache, need: nat, vs: seq<Key>)
    requires Victims(c, need, vs)
    ensures Live(EvictAll(c, vs).blocks) == Survivors(c.blocks, vs)
  {
    hide Victims, EvictAll;
    forall k { VictimsAreBlocks(c, need, vs, k); }
    var l, r := Live(EvictAll(c, vs).blocks), Survivors(c.blocks, vs);
    forall e | e in l ensures e in r {
      var k :| k in EvictAll(c, vs).blocks && EvictAll(c, vs).blocks[k].Range() == e;
    }
    forall e | e in r ensures e in l {
      var k :| k in c.blocks && k !in vs && c.blocks[k].Range() == e;
      assert k in EvictAll(c, vs).blocks;
    }
  }

  /** The request fits above the high-water mark, or between the blocks that survive the eviction. */
  ghost predicate Fits(c: Cache, n: nat, vs: seq<Key>) {
    0 < n && (c.arena.high + n <= c.arena.cap || HasWindow(Survivors(c.blocks, vs), c.arena.high, n))
  }

  /** A request succeeds exactly if it hits, or fits beside the survivors of the eviction it causes. */
  lemma EnsureSucceedsIff(c: Cache, k: Key, n: SizeT, priority: Int32, vs: seq<Key>)
    requires Inv(c) && NoWrap(c, k, n) && Choice(c, k, n, vs)
    ensures Ensure(c, k, n, priority, vs).1 <==> k in c.blocks || Fits(c, n, vs)
  {
    hide Sound, Victims, EvictAll, Alloc, HasWindow, Survivors, Live;
    if k !in c.blocks {
      var d := EvictAll(Request(c), vs);
      EvictAllInv(Request(c), vs);
      SurvivorsLive(Request(c), n, vs);
      SoundTiles(d.arena, d.blocks, d.tick);
      AllocFailsIff(d.arena, Live(d.blocks), n);
    }
  }

  // ---- a request that wraps around ------------------------------------------------------

  lemma PlaceKeepsInvIff(c: Cache, k: Key, n: SizeT, priority: Int32)
    requires Inv(c) && k !in c.blocks && Place(c, k, n, priority).1
    ensures Inv(Place(c, k, n, priority).0) <==>
            c.arena.high + n < SIZE_LIMIT || HasWindow(Live(c.blocks), c.arena.high, n)
  {
    hide Tiles, Alloc, HasWindow;
    var (a, off) := Alloc(c.arena, n);
    var b := Block(off.value, n, c.tick + 1, priority);
    AllocKeepsTilesIff(c.arena, Live(c.blocks), n);
    LiveInsert(c.blocks, k, b);
    if Tiles(a, Live(c.blocks) + {b.Range()}) {
      AllocGrows(c.arena, Live(c.blocks), n);
      SoundInsert(c.arena, c.blocks, c.tick, a, k, b);
    }
  }

  lemma AllocGrows(a: ArenaState, live: set<Extent>, bytes: SizeT)
    requires Tiles(a, live) && Alloc(a, bytes).1.Some?
    requires a.high + bytes < SIZE_LIMIT || HasWindow(live, a.high, bytes)
    ensures Grown(Alloc(a, bytes).0, live, Extent(Alloc(a, bytes).1.value, bytes))
  {
    hide Tiles, Grown, HasWindow;
    if a.high + bytes < SIZE_LIMIT {
      AllocTiles(a, live, bytes);
    } else {
      var i := FirstFit(a.holes, bytes);
      if i == |a.holes| { NoHoleNoWindow(a, live, bytes); }
      AllocFromHole(a, live, i, bytes);
    }
  }

  /**
   A request that succeeds on a miss keeps the cache sound exactly if high + n does not
   wrap around, or the request fits below the high-water mark anyway.
   */
  lemma EnsureKeepsInvIff(c: Cache, k: Key, n: SizeT, priority: Int32, vs: seq<Key>)
    requires Inv(c) && k !in c.blocks && Choice(c, k, n, vs) && Ensure(c, k, n, priority, vs).1
    ensures Inv(Ensure(c, k, n, priority, vs).0) <==>
            c.arena.high + n < SIZE_LIMIT || HasWindow(Survivors(c.blocks, vs), c.arena.high, n)
  {
    hide Sound, Victims, EvictAll, Place, HasWindow, Survivors, Live;
    EvictAllInv(Request(c), vs);
    SurvivorsLive(Request(c), n, vs);
    PlaceKeepsInvIff(EvictAll(Request(c), vs), k, n, priority);
  }

  /** One byte of two was in use once: a request for 2^64 - 1 bytes succeeds, with a block that leaves the arena. */
  lemma WrappingRequestSucceeds()
    ensures var c := Clear(Ensure(Empty(2), Key(0, 0), 1, 0, []).0);
            var (d, ok) := Ensure(c, Key(0, 1), SIZE_LIMIT - 1, 0, []);
            && Choice(c, Key(0, 1), SIZE_LIMIT - 1, []) && ok
            && Key(0, 1) in d.blocks && d.blocks[Key(0, 1)].Range().End() > d.arena.cap && !Inv(d)
  {
    OneOfTwo();
    hide Inv;
    var c := Clear(Ensure(Empty(2), Key(0, 0), 1, 0, []).0);
    var d := Ensure(c, Key(0, 1), SIZE_LIMIT - 1, 0, []).0;
    assert d.blocks[Key(0, 1)].Range() == Extent(1, SIZE_LIMIT - 1) && d.arena.cap == 2;
    if Inv(d) { BlockInside(d, Key(0, 1)); }
  }

  lemma OneOfTwo()
    ensures Clear(Ensure(Empty(2), Key(0, 0), 1, 0, []).0).arena == ArenaState(2, 0, 1, [Extent(0, 1)])
  {
  }

  // ---- an empty cache --------------------------------------------------------------

  /** An empty cache takes exactly the requests that fit on one side of its high-water mark. */
  lemma EmptyEnsureIff(c: Cache, k: Key, n: SizeT, priority: Int32, vs: seq<Key>)
    requires Inv(c) && c.blocks == map[] && c.arena.high + n < SIZE_LIMIT && Choice(c, k, n, vs)
    ensures vs == []
    ensures Ensure(c, k, n, priority, vs).1 <==>
            0 < n && (n <= c.arena.high || c.arena.high + n <= c.arena.cap)
  {
    hide Inv;
    EnsureSucceedsIff(c, k, n, priority, vs);
    assert Survivors(c.blocks, vs) == {};
    if n <= c.arena.high { assert Window({}, c.arena.high, 0, n); }
  }

  /** The same after `clear`, which frees every block and keeps the high-water mark. */
  lemma ClearedEnsureIff(c: Cache, k: Key, n: SizeT, priority: Int32, vs: seq<Key>)
    requires Inv(c) && c.arena.high + n < SIZE_LIMIT && Choice(Clear(c), k, n, vs)
    ensures Clear(c).arena.FreeSpace() == c.arena.cap
    ensures Ensure(Clear(c), k, n, priority, vs).1 <==>
            0 < n && (n <= c.arena.high || c.arena.high + n <= c.arena.cap)
  {
    ClearInv(c);
    hide Inv, Choice, Ensure;
    EmptyEnsureIff(Clear(c), k, n, priority, vs);
  }

  /**
   A cache emptied by `clear` refuses a request within its budget: after two of three
   bytes were in use once, the hole below the high-water mark and the byte above it
   are never joined.
   */
  lemma EmptyCacheRefuses()
    ensures var c := Clear(Ensure(Empty(3), Key(0, 0), 2, 0, []).0);
            && c.blocks == map[] && c.arena.FreeSpace() == 3 && Choice(c, Key(0, 1), 3, [])
            && !Ensure(c, Key(0, 1), 3, 0, []).1
  {
    hide Ensure, Inv;
    TwoOfThree();
    EmptyInv(3);
    EnsureInv(Empty(3), Key(0, 0), 2, 0, []);
    ClearedEnsureIff(Ensure(Empty(3), Key(0, 0), 2, 0, []).0, Key(0, 1), 3, 0, []);
  }

  lemma TwoOfThree()
    ensures Ensure(Empty(3), Key(0, 0), 2, 0, []).0.arena == ArenaState(3, 2, 2, [])
  {
  }

  lemma NothingFits(a: ArenaState, live: set<Extent>, n: SizeT)
    requires Tiles(a, live) && a.cap < n && a.high + n < SIZE_LIMIT
    ensures Alloc(a, n).1.None? && a.FreeSpace() < n
  {
    assert forall i :: 0 <= i < |a.holes| ==> a.holes[i].size < n;
  }

  /** A request above the whole budget (C = 0) empties the cache and still fails. */
  lemma OversizedFails(c: Cache, n: SizeT, k: Key, priority: Int32, vs: seq<Key>)
    requires Inv(c) && c.arena.cap < n && c.arena.high + n < SIZE_LIMIT
    requires k !in c.blocks && Choice(c, k, n, vs)
    ensures !Ensure(c, k, n, priority, vs).1 && Ensure(c, k, n, priority, vs).0.blocks == map[]
  {
    hide Sound, Victims, EvictAll, Alloc;
    var d := EvictAll(Request(c), vs);
    EvictAllInv(Request(c), vs);
    VictimsStopEarly(Request(c), n, vs, |vs|);
    assert vs[..|vs|] == vs;
    SoundTiles(d.arena, d.blocks, d.tick);
    NothingFits(d.arena, Live(d.blocks), n);
  }

  /**
   With mixed sizes `Ensure` can fail inside the budget: eviction counts free bytes,
   not contiguous ones. Three one-byte blocks in three bytes, the middle one of high
   priority; a two-byte request evicts its neighbours and finds two one-byte holes.
   */
  lemma MixedSizesCanFail()
    ensures var x, y, z, w := Key(0, 0), Key(0, 1), Key(0, 2), Key(0, 3);
            var c1 := Ensure(Empty(3), x, 1, 0, []).0;
            var c2 := Ensure(c1, y, 1, 5, []).0;
            var c3 := Ensure(c2, z, 1, 0, []).0;
            && Choice(c3, w, 2, [x, z]) && 2 <= c3.arena.cap
            && !Ensure(c3, w, 2, 0, [x, z]).1
  {
    hide Ensure, EvictAll, Victims, Place;
    ThreeLoaded();
    var c := Ensure(Ensure(Ensure(Empty(3), Key(0, 0), 1, 0, []).0, Key(0, 1), 1, 5, []).0, Key(0, 2), 1, 0, []).0;
    FragmentedEvictions(Request(c));
    MissIs(c, Key(0, 3), 2, 0, [Key(0, 0), Key(0, 2)]);
  }

  lemma MissIs(c: Cache, k: Key, n: SizeT, priority: Int32, vs: seq<Key>)
    requires k !in c.blocks
    ensures Ensure(c, k, n, priority, vs) == Place(EvictAll(Request(c), vs), k, n, priority)
    ensures Choice(c, k, n, vs) == Victims(Request(c), n, vs)
  {
    hide Place, EvictAll, Victims;
  }

  lemma ThreeLoaded()
    ensures var x, y, z := Key(0, 0), Key(0, 1), Key(0, 2);
            var c := Ensure(Ensure(Ensure(Empty(3), x, 1, 0, []).0, y, 1, 5, []).0, z, 1, 0, []).0;
            && c.arena == ArenaState(3, 3, 3, [])
            && c.blocks == map[x := Block(0, 1, 1, 0), y := Block(1, 1, 2, 5), z := Block(2, 1, 3, 0)]
  {
    var x, y, z := Key(0, 0), Key(0, 1), Key(0, 2);
    var c1 := Ensure(Empty(3), x, 1, 0, []).0;
    assert c1.arena == ArenaState(3, 1, 1, []) && c1.tick == 1;
    assert c1.blocks == map[x := Block(0, 1, 1, 0)];
    var c2 := Ensure(c1, y, 1, 5, []).0;
    assert c2.arena == ArenaState(3, 2, 2, []) && c2.tick == 2;
    assert c2.blocks == map[x := Block(0, 1, 1, 0), y := Block(1, 1, 2, 5)];
  }

  lemma FreeOuter()
    ensures Free(ArenaState(3, 3, 3, []), 0, 1) == ArenaState(3, 2, 3, [Extent(0, 1)])
    ensures Free(ArenaState(3, 2, 3, [Extent(0, 1)]), 2, 1) == ArenaState(3, 1, 3, [Extent(0, 1), Extent(2, 1)])
  {
    var holes := [Extent(0, 1), Extent(2, 1)];
    assert Insert([], Extent(0, 1)) == [Extent(0, 1)];
    assert Coalesce([Extent(0, 1)]) == [Extent(0, 1)];
    assert LowerBound([Extent(0, 1)], 2) == 1;
    assert Insert([Extent(0, 1)], Extent(2, 1)) == holes;
    assert holes[..1] == [Extent(0, 1)];
    assert Coalesce(holes) == holes;
  }

  lemma NoPairFits(c: Cache)
    requires c.arena == ArenaState(3, 1, 3, [Extent(0, 1), Extent(2, 1)])
    ensures !Place(c, Key(0, 3), 2, 0).1
  {
  }

  lemma FragmentedEvictions(c: Cache)
    requires c.arena == ArenaState(3, 3, 3, [])
    requires c.blocks == map[Key(0, 0) := Block(0, 1, 1, 0), Key(0, 1) := Block(1, 1, 2, 5),
                             Key(0, 2) := Block(2, 1, 3, 0)]
    ensures Victims(c, 2, [Key(0, 0), Key(0, 2)])
    ensures !Place(EvictAll(c, [Key(0, 0), Key(0, 2)]), Key(0, 3), 2, 0).1
  {
    hide Free, Place;
    var x, y, z := Key(0, 0), Key(0, 1), Key(0, 2);
    FreeOuter();
    var d := Evict(c, x);
    assert d.blocks == map[y := Block(1, 1, 2, 5), z := Block(2, 1, 3, 0)];
    var e := Evict(d, z);
    NoPairFits(e);
    assert IsVictim(c.blocks, x) && IsVictim(d.blocks, z);
    hide IsVictim;
    assert [x, z][1..] == [z] && [z][1..] == [];
    assert Victims(e, 2, []);
    assert Victims(d, 2, [z]);
    assert EvictAll(c, [x, z]) == EvictAll(d, [z]) == EvictAll(e, []) == e;
  }
}
