/**
 The byte-budget expert cache of dee.cpp/src/vram_cache.cpp on values. Eviction scans a
 hash map, so among blocks of equal score the victim depends on the map's order; a
 call therefore takes the sequence of victims as an argument, and `Victims` says which
 sequences the scan can produce.
 */
module CacheSpec {
  import opened Extents
  import opened ArenaSpec

  type Int32 = x: int | -0x8000_0000 <= x < 0x8000_0000

  datatype Key = Key(layer: Int32, expert: Int32)

  const PRIORITY_WEIGHT: nat := 0x10_0000

  /** A resident block. Blocks leave the map when evicted, so every mapped block is resident. */
  datatype Block = Block(off: nat, size: nat, lastUsed: nat, priority: Int32) {
    function Range(): Extent { Extent(off, size) }

    function Score(): int { lastUsed + priority * PRIORITY_WEIGHT }
  }

  datatype Stats = Stats(requests: nat, hits: nat, loads: nat, evictions: nat, fallbacks: nat)

  datatype Cache = Cache(arena: ArenaState, blocks: map<Key, Block>, tick: nat, stats: Stats)

  function Empty(budget: SizeT): Cache {
    Cache(Init(budget), map[], 0, Stats(0, 0, 0, 0, 0))
  }

  // ---- one call ----------------------------------------------------------

  ghost predicate IsVictim(blocks: map<Key, Block>, k: Key) {
    k in blocks && forall j :: j in blocks ==> blocks[k].Score() <= blocks[j].Score()
  }

  lemma IsVictimIn(blocks: map<Key, Block>, k: Key)
    requires IsVictim(blocks, k)
    ensures k in blocks
  {
  }

  function Evict(c: Cache, k: Key): Cache
    requires k in c.blocks
  {
    c.(arena := Free(c.arena, c.blocks[k].off, c.blocks[k].size),
       blocks := c.blocks - {k},
       stats := c.stats.(evictions := c.stats.evictions + 1))
  }

  function EvictAll(c: Cache, vs: seq<Key>): Cache
    decreases vs
  {
    if vs == [] || vs[0] !in c.blocks then c else EvictAll(Evict(c, vs[0]), vs[1..])
  }

  /** `vs` is a sequence of evictions that evict_until_free(need) can perform. */
  ghost predicate Victims(c: Cache, need: nat, vs: seq<Key>)
    decreases vs
  {
    if c.arena.FreeSpace() < need && c.blocks != map[] then
      vs != [] && IsVictim(c.blocks, vs[0]) && Victims(Evict(c, vs[0]), need, vs[1..])
    else
      vs == []
  }

  function Refresh(c: Cache, k: Key, priority: Int32): Cache
    requires k in c.blocks
  {
    c.(tick := c.tick + 1,
       blocks := c.blocks[k := c.blocks[k].(lastUsed := c.tick + 1, priority := priority)])
  }

  /** The insertion half of a miss, once room has been made. */
  function Place(c: Cache, k: Key, nbytes: SizeT, priority: Int32): (Cache, bool) {
    var (a, off) := Alloc(c.arena, nbytes);
    if off.None? then (c.(arena := a), false)
    else
      (c.(arena := a, tick := c.tick + 1,
          blocks := c.blocks[k := Block(off.value, nbytes, c.tick + 1, priority)],
          stats := c.stats.(loads := c.stats.loads + 1)), true)
  }

  function Request(c: Cache): Cache {
    c.(stats := c.stats.(requests := c.stats.requests + 1))
  }

  function Ensure(c: Cache, k: Key, nbytes: SizeT, priority: Int32, vs: seq<Key>): (Cache, bool) {
    if k in c.blocks then
      var h := Request(c);
      (Refresh(h.(stats := h.stats.(hits := h.stats.hits + 1)), k, priority), true)
    else
      Place(EvictAll(Request(c), vs), k, nbytes, priority)
  }

  /** A miss does not ask for so much that the bump test wraps around. */
  predicate NoWrap(c: Cache, k: Key, nbytes: SizeT) { k in c.blocks || c.arena.high + nbytes < SIZE_LIMIT }

  /** The victims an `Ensure` call can have: none on a hit. */
  ghost predicate Choice(c: Cache, k: Key, nbytes: nat, vs: seq<Key>) {
    if k in c.blocks then vs == [] else Victims(Request(c), nbytes, vs)
  }

  function Touch(c: Cache, k: Key): Cache {
    if k in c.blocks then Refresh(c, k, c.blocks[k].priority) else c
  }

  function SyncFallback(c: Cache, k: Key, nbytes: SizeT, priority: Int32, vs: seq<Key>): (Cache, bool) {
    if k in c.blocks then (c, true)
    else Ensure(c.(stats := c.stats.(fallbacks := c.stats.fallbacks + 1)), k, nbytes, priority, vs)
  }

  /** Everything evicted and the clock restarted; the high-water mark stays, below it one hole. */
  function Clear(c: Cache): Cache {
    c.(arena := c.arena.(used := 0, holes := if c.arena.high == 0 then [] else [Extent(0, c.arena.high)]),
       blocks := map[], tick := 0)
  }

  // ---- the invariant -------------------------------------------------------

  ghost function Live(blocks: map<Key, Block>): set<Extent> {
    set k | k in blocks :: blocks[k].Range()
  }

  ghost predicate BlocksDisjoint(blocks: map<Key, Block>) {
    forall j, k :: j in blocks && k in blocks && j != k ==> Disjoint(blocks[j].Range(), blocks[k].Range())
  }

  ghost predicate Clocked(blocks: map<Key, Block>, tick: nat) {
    && (forall k :: k in blocks ==> 1 <= blocks[k].lastUsed <= tick)
    && (forall j, k :: j in blocks && k in blocks && j != k ==> blocks[j].lastUsed != blocks[k].lastUsed)
  }

  /** Blocks tile the arena with the holes, never overlap, and carry distinct use ticks. */
  ghost predicate Sound(arena: ArenaState, blocks: map<Key, Block>, tick: nat) {
    && Tiles(arena, Live(blocks))
    && BlocksDisjoint(blocks)
    && Clocked(blocks, tick)
  }

  ghost predicate Inv(c: Cache) { Sound(c.arena, c.blocks, c.tick) }

  lemma LiveRemove(arena: ArenaState, blocks: map<Key, Block>, tick: nat, k: Key)
    requires Sound(arena, blocks, tick) && k in blocks
    ensures Live(blocks - {k}) == Live(blocks) - {blocks[k].Range()}
    ensures blocks[k].Range() in Live(blocks)
  {
    assert blocks[k].Range() in Live(blocks);
    forall j | j in blocks && j != k ensures blocks[j].Range() != blocks[k].Range() {
      assert Disjoint(blocks[j].Range(), blocks[k].Range());
    }
    var l, r := Live(blocks - {k}), Live(blocks) - {blocks[k].Range()};
    forall e | e in r ensures e in l {
      var j :| j in blocks && blocks[j].Range() == e;
      assert j in blocks - {k};
    }
  }

  lemma LiveInsert(blocks: map<Key, Block>, k: Key, b: Block)
    requires k !in blocks
    ensures Live(blocks[k := b]) == Live(blocks) + {b.Range()}
  {
    var m := blocks[k := b];
    assert forall j :: j in blocks ==> m[j] == blocks[j];
    assert m[k] == b && k in m;
  }

  lemma LiveUpdate(blocks: map<Key, Block>, k: Key, b: Block)
    requires k in blocks && b.Range() == blocks[k].Range()
    ensures Live(blocks[k := b]) == Live(blocks)
  {
    var m := blocks[k := b];
    assert forall j :: j in blocks ==> j in m && m[j].Range() == blocks[j].Range();
  }

  lemma SoundRemove(arena: ArenaState, blocks: map<Key, Block>, tick: nat, k: Key)
    requires Sound(arena, blocks, tick) && k in blocks
    ensures Sound(Free(arena, blocks[k].off, blocks[k].size), blocks - {k}, tick)
    ensures Free(arena, blocks[k].off, blocks[k].size).used == arena.used - blocks[k].size
  {
    LiveRemove(arena, blocks, tick, k);
    FreeTiles(arena, Live(blocks), blocks[k].Range());
  }

  lemma SoundRefresh(arena: ArenaState, blocks: map<Key, Block>, tick: nat, k: Key, b: Block)
    requires Sound(arena, blocks, tick) && k in blocks
    requires b.Range() == blocks[k].Range() && b.lastUsed == tick + 1
    ensures Sound(arena, blocks[k := b], tick + 1)
  {
    hide Tiles;
    LiveUpdate(blocks, k, b);
  }

  /** Inserting a block that an allocation just grew the arena by. */
  lemma SoundInsert(arena: ArenaState, blocks: map<Key, Block>, tick: nat, a: ArenaState, k: Key, b: Block)
    requires Sound(arena, blocks, tick) && k !in blocks && b.lastUsed == tick + 1
    requires Grown(a, Live(blocks), b.Range())
    ensures Sound(a, blocks[k := b], tick + 1)
  {
    hide Tiles;
    LiveInsert(blocks, k, b);
    forall j | j in blocks ensures Disjoint(b.Range(), blocks[j].Range()) {
      assert blocks[j].Range() in Live(blocks);
    }
  }

  lemma EvictInv(c: Cache, k: Key)
    requires Inv(c) && k in c.blocks
    ensures Inv(Evict(c, k))
    ensures Evict(c, k).arena.used == c.arena.used - c.blocks[k].size
  {
    hide Sound;
    SoundRemove(c.arena, c.blocks, c.tick, k);
  }

  /** Evicting keeps the invariant, and every survivor is left where it was. */
  lemma {:induction false} EvictAllInv(c: Cache, vs: seq<Key>)
    requires Inv(c)
    ensures Inv(EvictAll(c, vs))
    ensures EvictAll(c, vs).arena.cap == c.arena.cap && EvictAll(c, vs).arena.high == c.arena.high
    ensures EvictAll(c, vs).tick == c.tick
    ensures EvictAll(c, vs).blocks.Keys <= c.blocks.Keys
    ensures forall k :: k in EvictAll(c, vs).blocks ==> EvictAll(c, vs).blocks[k] == c.blocks[k]
    decreases vs
  {
    hide Inv;
    if vs != [] && vs[0] in c.blocks {
      EvictInv(c, vs[0]);
      EvictAllInv(Evict(c, vs[0]), vs[1..]);
    }
  }

  lemma SoundTiles(arena: ArenaState, blocks: map<Key, Block>, tick: nat)
    requires Sound(arena, blocks, tick)
    ensures Tiles(arena, Live(blocks)) && arena.high <= arena.cap
  {
  }

  lemma InvHigh(c: Cache)
    requires Inv(c)
    ensures c.arena.high <= c.arena.cap
  {
    SoundTiles(c.arena, c.blocks, c.tick);
  }

  lemma PlaceInv(c: Cache, k: Key, nbytes: SizeT, priority: Int32)
    requires Inv(c) && k !in c.blocks && c.arena.high + nbytes < SIZE_LIMIT
    ensures Inv(Place(c, k, nbytes, priority).0)
    ensures Place(c, k, nbytes, priority).0.arena.cap == c.arena.cap
  {
    hide Sound, Tiles, Alloc, Grown, Live;
    SoundTiles(c.arena, c.blocks, c.tick);
    AllocTiles(c.arena, Live(c.blocks), nbytes);
    var (a, off) := Alloc(c.arena, nbytes);
    if off.Some? {
      SoundInsert(c.arena, c.blocks, c.tick, a, k, Block(off.value, nbytes, c.tick + 1, priority));
    }
  }

  lemma RefreshInv(c: Cache, k: Key, priority: Int32)
    requires Inv(c) && k in c.blocks
    ensures Inv(Refresh(c, k, priority))
  {
    hide Sound;
    SoundRefresh(c.arena, c.blocks, c.tick, k,
                 c.blocks[k].(lastUsed := c.tick + 1, priority := priority));
  }

  /** `Ensure` keeps the invariant, whatever it evicts. */
  lemma EnsureInv(c: Cache, k: Key, nbytes: SizeT, priority: Int32, vs: seq<Key>)
    requires Inv(c) && NoWrap(c, k, nbytes)
    ensures Inv(Ensure(c, k, nbytes, priority, vs).0)
    ensures Ensure(c, k, nbytes, priority, vs).0.arena.cap == c.arena.cap
  {
    hide Sound, Place;
    if k in c.blocks {
      var h := Request(c);
      RefreshInv(h.(stats := h.stats.(hits := h.stats.hits + 1)), k, priority);
    } else {
      EvictAllInv(Request(c), vs);
      PlaceInv(EvictAll(Request(c), vs), k, nbytes, priority);
    }
  }

  /** `Ensure` moves no block, and leaves `k` resident exactly when it reports success. */
  lemma EnsureFrame(c: Cache, k: Key, nbytes: SizeT, priority: Int32, vs: seq<Key>)
    requires Inv(c)
    ensures var (d, ok) := Ensure(c, k, nbytes, priority, vs);
            && (ok <==> k in d.blocks)
            && (forall j :: j in d.blocks && j != k ==> j in c.blocks && d.blocks[j] == c.blocks[j])
            && (k in c.blocks ==> ok && d.blocks[k].Range() == c.blocks[k].Range())
            && (k !in c.blocks && ok ==> d.blocks[k].size == nbytes)
            && (ok ==> d.tick == c.tick + 1 && d.blocks[k].lastUsed == d.tick && d.blocks[k].priority == priority)
  {
    hide Sound, Alloc;
    if k !in c.blocks { EvictAllInv(Request(c), vs); }
  }

  /** Touching makes a resident expert the most recently used and changes nothing else. */
  lemma TouchMostRecent(c: Cache, k: Key)
    requires Inv(c)
    ensures var d := Touch(c, k);
            && d.arena == c.arena && d.blocks.Keys == c.blocks.Keys
            && (k !in c.blocks ==> d == c)
            && (k in c.blocks ==> d.blocks[k] == c.blocks[k].(lastUsed := d.tick))
            && forall j :: j in c.blocks && j != k ==>
                 d.blocks[j] == c.blocks[j] && (k in c.blocks ==> d.blocks[j].lastUsed < d.blocks[k].lastUsed)
  {
    hide Tiles, BlocksDisjoint;
  }

  lemma BlockInside(c: Cache, k: Key)
    requires Inv(c) && k in c.blocks
    ensures c.blocks[k].size > 0 && c.blocks[k].Range().End() <= c.arena.cap
    ensures BlocksDisjoint(c.blocks)
  {
    assert c.blocks[k].Range() in Live(c.blocks);
  }

  lemma ClearInv(c: Cache)
    requires Inv(c)
    ensures Inv(Clear(c))
  {
    var a := Clear(c).arena;
    assert Live(map[]) == {};
    assert SumSizes(a.holes) == a.high by {
      if a.high > 0 { assert a.holes[..0] == []; }
    }
    forall x | 0 <= x < a.high ensures InSomeOf(a.holes, x) {
      assert a.holes[0] in a.holes && a.holes[0].Has(x);
    }
  }

  // ---- whole runs ----------------------------------------------------------

  datatype CacheOp =
    | Ensuring(key: Key, nbytes: SizeT, priority: Int32, victims: seq<Key>)
    | FallingBack(key: Key, nbytes: SizeT, priority: Int32, victims: seq<Key>)
    | Touching(key: Key)
    | Clearing

  ghost predicate CachePossible(c: Cache, op: CacheOp) {
    match op
    case Ensuring(k, n, _, vs) => NoWrap(c, k, n) && Choice(c, k, n, vs)
    case FallingBack(k, n, _, vs) =>
      && NoWrap(c, k, n)
      && Choice(c.(stats := c.stats.(fallbacks := c.stats.fallbacks + 1)), k, n, vs)
    case Touching(_) => true
    case Clearing => true
  }

  function CacheStep(c: Cache, op: CacheOp): Cache {
    match op
    case Ensuring(k, n, p, vs) => Ensure(c, k, n, p, vs).0
    case FallingBack(k, n, p, vs) => SyncFallback(c, k, n, p, vs).0
    case Touching(k) => Touch(c, k)
    case Clearing => Clear(c)
  }

  /** The expert for which a call reserves a block it did not have. */
  function Reserved(c: Cache, op: CacheOp): set<Key> {
    if (op.Ensuring? || op.FallingBack?) && op.key !in c.blocks then {op.key} else {}
  }

  /** No call moves a block, and none makes an expert resident but the one it reserves for. */
  lemma CacheStepFrame(c: Cache, op: CacheOp, j: Key)
    requires Inv(c) && j in CacheStep(c, op).blocks
    ensures if j in c.blocks then CacheStep(c, op).blocks[j].Range() == c.blocks[j].Range()
            else j in Reserved(c, op)
  {
    hide Sound, Ensure;
    match op
    case Ensuring(k, n, p, vs) => EnsureFrame(c, k, n, p, vs);
    case FallingBack(k, n, p, vs) =>
      EnsureFrame(c.(stats := c.stats.(fallbacks := c.stats.fallbacks + 1)), k, n, p, vs);
    case Touching(_) =>
    case Clearing =>
  }

  ghost predicate CacheRun(cs: seq<Cache>, ops: seq<CacheOp>) {
    && |cs| == |ops| + 1
    && forall i :: 0 <= i < |ops| ==> CachePossible(cs[i], ops[i]) && cs[i + 1] == CacheStep(cs[i], ops[i])
  }

  lemma CacheStepInv(c: Cache, op: CacheOp)
    requires Inv(c) && CachePossible(c, op)
    ensures Inv(CacheStep(c, op)) && CacheStep(c, op).arena.cap == c.arena.cap
  {
    hide Sound, Place, Ensure, Choice;
    match op
    case Ensuring(k, n, p, vs) => EnsureInv(c, k, n, p, vs);
    case FallingBack(k, n, p, vs) =>
      EnsureInv(c.(stats := c.stats.(fallbacks := c.stats.fallbacks + 1)), k, n, p, vs);
    case Touching(k) => if k in c.blocks { RefreshInv(c, k, c.blocks[k].priority); }
    case Clearing => ClearInv(c);
  }

  /** In every run the blocks tile the arena, are disjoint, and their use ticks are distinct. */
  lemma {:induction false} CacheRunInv(cs: seq<Cache>, ops: seq<CacheOp>, i: nat)
    requires CacheRun(cs, ops) && i < |cs| && cs[0] == Empty(cs[0].arena.cap)
    ensures Inv(cs[i]) && cs[i].arena.cap == cs[0].arena.cap
  {
    hide Inv, CacheStep, CachePossible;
    if i == 0 {
      EmptyInv(cs[0].arena.cap);
    } else {
      CacheRunInv(cs, ops, i - 1);
      CacheStepInv(cs[i - 1], ops[i - 1]);
    }
  }

  lemma EmptyInv(budget: SizeT)
    ensures Inv(Empty(budget))
  {
    assert Live(map[]) == {};
    InitTiles(budget);
  }
}
