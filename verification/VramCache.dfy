/** The expert cache of dee.cpp/src/vram_cache.cpp with its fields updated in place. */
module VramCache {
  import opened Wrappers
  import opened ArenaSpec
  import opened Arenas
  import opened CacheSpec
  import opened Maps

  /** A run of evictions from `c` by `vs` has reached `d`, and can go on as `d` goes on. */
  ghost predicate Reaches(c: Cache, need: nat, vs: seq<Key>, d: Cache) {
    forall ws :: Victims(d, need, ws) ==> Victims(c, need, vs + ws) && EvictAll(c, vs + ws) == EvictAll(d, ws)
  }

  lemma ReachesStart(c: Cache, need: nat)
    ensures Reaches(c, need, [], c)
  {
    hide Evict, IsVictim;
    forall ws | Victims(c, need, ws) ensures Victims(c, need, [] + ws) && EvictAll(c, [] + ws) == EvictAll(c, ws) {
      assert [] + ws == ws;
    }
  }

  lemma ReachesNext(c: Cache, need: nat, vs: seq<Key>, d: Cache, v: Key)
    requires Reaches(c, need, vs, d) && d.arena.FreeSpace() < need && IsVictim(d.blocks, v)
    ensures Reaches(c, need, vs + [v], Evict(d, v))
  {
    hide Free;
    forall ws | Victims(Evict(d, v), need, ws)
      ensures Victims(c, need, vs + [v] + ws) && EvictAll(c, vs + [v] + ws) == EvictAll(Evict(d, v), ws)
    {
      var vws := [v] + ws;
      assert vws[0] == v && vws[1..] == ws;
      assert Victims(d, need, vws);
      assert vs + [v] + ws == vs + vws;
    }
  }

  lemma ReachesEnd(c: Cache, need: nat, vs: seq<Key>, d: Cache)
    requires Reaches(c, need, vs, d) && (d.arena.FreeSpace() >= need || d.blocks == map[])
    ensures Victims(c, need, vs) && d == EvictAll(c, vs)
  {
    assert Victims(d, need, []);
    assert vs + [] == vs;
  }

  class VramCacheManager {
    const arena: Arena
    var blocks: map<Key, Block>
    var tick: nat
    var stats: Stats

    ghost function State(): Cache
      reads this, arena
    {
      Cache(arena.State(), blocks, tick, stats)
    }

    constructor (budget: SizeT)
      ensures State() == Empty(budget)
      ensures fresh(arena) && fresh(arena.base) && arena.base.Length == budget
    {
      arena := new Arena(budget);
      blocks, tick, stats := map[], 0, Stats(0, 0, 0, 0, 0);
    }

    /** Scan the map, in whatever order it has, for a block of lowest score. */
    method FindVictim() returns (victim: Key)
      requires blocks != map[]
      ensures IsVictim(blocks, victim)
    {
      var rest := blocks.Keys;
      assert rest != {};
      victim :| victim in rest;
      rest := rest - {victim};
      while rest != {}
        invariant rest <= blocks.Keys && victim in blocks
        invariant forall k :: k in blocks && k !in rest ==> blocks[victim].Score() <= blocks[k].Score()
        decreases rest
      {
        var k :| k in rest;
        rest := rest - {k};
        if blocks[k].Score() < blocks[victim].Score() { victim := k; }
      }
    }

    method EvictUntilFree(need: nat) returns (ghost vs: seq<Key>)
      modifies this, arena
      ensures Victims(old(State()), need, vs)
      ensures State() == EvictAll(old(State()), vs)
    {
      hide Reaches, IsVictim, ArenaSpec.Free;
      vs := [];
      ReachesStart(State(), need);
      while Wrap(arena.cap - arena.used) < need && blocks != map[]
        invariant Reaches(old(State()), need, vs, State())
        decreases |blocks|
      {
        var victim := FindVictim();
        ghost var before := State();
        IsVictimIn(blocks, victim);
        SizeRemove(blocks, victim);
        arena.Free(blocks[victim].off, blocks[victim].size);
        blocks := blocks - {victim};
        stats := stats.(evictions := stats.evictions + 1);
        ReachesNext(old(State()), need, vs, before, victim);
        vs := vs + [victim];
        assert State() == Evict(before, victim);
      }
      ReachesEnd(old(State()), need, vs, State());
    }

    method Ensure(k: Key, nbytes: SizeT, priority: Int32) returns (ok: bool, ghost vs: seq<Key>)
      modifies this, arena
      ensures Choice(old(State()), k, nbytes, vs)
      ensures (State(), ok) == CacheSpec.Ensure(old(State()), k, nbytes, priority, vs)
    {
      hide Victims, EvictAll, ArenaSpec.Alloc;
      vs := [];
      stats := stats.(requests := stats.requests + 1);
      if k in blocks {
        tick := tick + 1;
        blocks := blocks[k := blocks[k].(lastUsed := tick, priority := priority)];
        stats := stats.(hits := stats.hits + 1);
        return true, [];
      }
      vs := EvictUntilFree(nbytes);
      var off := arena.Alloc(nbytes);
      if off.None? { return false, vs; }
      tick := tick + 1;
      blocks := blocks[k := Block(off.value, nbytes, tick, priority)];
      stats := stats.(loads := stats.loads + 1);
      ok := true;
    }

    method Touch(k: Key)
      modifies this
      ensures State() == CacheSpec.Touch(old(State()), k)
    {
      if k in blocks {
        tick := tick + 1;
        blocks := blocks[k := blocks[k].(lastUsed := tick)];
      }
    }

    /** The arena offset of a resident expert's block; absent where the source returns a null pointer. */
    function Data(k: Key): (off: Option<nat>)
      reads this
    {
      if k in blocks then Some(blocks[k].off) else None
    }

    method SyncFallback(k: Key, nbytes: SizeT, priority: Int32) returns (ok: bool, ghost vs: seq<Key>)
      modifies this, arena
      ensures k !in old(blocks) ==>
                Choice(old(State()).(stats := old(stats).(fallbacks := old(stats).fallbacks + 1)), k, nbytes, vs)
      ensures (State(), ok) == CacheSpec.SyncFallback(old(State()), k, nbytes, priority, vs)
    {
      if k in blocks { return true, []; }
      stats := stats.(fallbacks := stats.fallbacks + 1);
      ok, vs := Ensure(k, nbytes, priority);
    }

    /** Frees the blocks in whatever order the map has; the arena ends up the same. */
    method Clear()
      requires Inv(State())
      modifies this, arena
      ensures State() == CacheSpec.Clear(old(State()))
    {
      hide Sound, ArenaSpec.Free;
      ghost var clock := tick;
      while blocks != map[]
        invariant Sound(arena.State(), blocks, clock)
        invariant arena.high == old(arena.high)
        invariant stats == old(stats)
        decreases |blocks|
      {
        assert blocks.Keys != {};
        var k :| k in blocks.Keys;
        SoundRemove(arena.State(), blocks, clock, k);
        FreeHigh(arena.State(), blocks[k].off, blocks[k].size);
        SizeRemove(blocks, k);
        arena.Free(blocks[k].off, blocks[k].size);
        blocks := blocks - {k};
      }
      SoundTiles(arena.State(), blocks, clock);
      assert Live(map[]) == {};
      EmptyIsOneHole(arena.State());
      tick := 0;
    }
  }
}
