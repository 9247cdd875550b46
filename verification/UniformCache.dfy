/**
 When every request has the same size b, the byte arena refines a plain cache of
 C = budget / b entries: fragmentation cannot occur.
 */
module UniformCache {
  import opened Extents
  import opened ArenaSpec
  import opened CacheSpec
  import opened Maps

  // ---- the plain cache -------------------------------------------------------

  datatype Entry = Entry(lastUsed: nat, priority: Int32) {
    function Score(): int { lastUsed + priority * PRIORITY_WEIGHT }
  }

  datatype Plain = Plain(entries: map<Key, Entry>, tick: nat, loads: nat, evictions: nat)

  function Load(p: Plain, k: Key, priority: Int32): Plain {
    Plain(p.entries[k := Entry(p.tick + 1, priority)], p.tick + 1, p.loads + 1, p.evictions)
  }

  /** One request against a cache of `slots` entries: refresh, or drop `vs` (at most one key) and load. */
  function PlainEnsure(p: Plain, k: Key, priority: Int32, vs: seq<Key>): Plain {
    if k in p.entries then
      p.(entries := p.entries[k := Entry(p.tick + 1, priority)], tick := p.tick + 1)
    else if vs == [] then Load(p, k, priority)
    else Load(p.(entries := p.entries - {vs[0]}, evictions := p.evictions + 1), k, priority)
  }

  ghost predicate PlainChoice(p: Plain, slots: nat, k: Key, vs: seq<Key>) {
    if k in p.entries || |p.entries| < slots then vs == []
    else
      && |vs| == 1 && vs[0] in p.entries
      && forall j :: j in p.entries ==> p.entries[vs[0]].Score() <= p.entries[j].Score()
  }

  function Entries(blocks: map<Key, Block>): map<Key, Entry> {
    map k | k in blocks :: Entry(blocks[k].lastUsed, blocks[k].priority)
  }

  function Abstract(c: Cache): Plain {
    Plain(Entries(c.blocks), c.tick, c.stats.loads, c.stats.evictions)
  }

  // ---- multiples of b ----------------------------------------------------------

  ghost predicate Mult(x: int, b: nat) { exists q: int :: x == q * b }

  lemma MultAdd(x: int, y: int, b: nat)
    requires Mult(x, b) && Mult(y, b)
    ensures Mult(x + y, b)
  {
    var p: int :| x == p * b;
    var q: int :| y == q * b;
    assert x + y == (p + q) * b;
  }

  lemma MultSub(x: int, b: nat)
    requires Mult(x, b)
    ensures Mult(x - b, b)
  {
    var p: int :| x == p * b;
    assert x - b == (p - 1) * b;
  }

  lemma MultPositive(x: int, b: nat)
    requires Mult(x, b) && x > 0 && b > 0
    ensures x >= b
  {
    var p: int :| x == p * b;
    assert p <= 0 ==> p * b <= 0;
    assert p >= 1 ==> p * b >= b;
  }

  ghost function Times(n: nat, b: nat): nat { n * b }

  lemma TimesSuc(n: nat, b: nat)
    ensures Times(n + 1, b) == Times(n, b) + b
  {
  }

  lemma TimesMono(m: nat, n: nat, b: nat)
    requires m <= n
    ensures Times(m, b) <= Times(n, b)
  {
    assert n * b == m * b + (n - m) * b;
  }

  lemma Divides(cap: nat, b: nat)
    requires b > 0
    ensures Times(cap / b, b) <= cap < Times(cap / b, b) + b
  {
    assert cap == cap / b * b + cap % b;
  }

  lemma FitsIff(cap: nat, b: nat, n: nat)
    requires b > 0
    ensures Times(n + 1, b) <= cap <==> n + 1 <= cap / b
  {
    hide Times;
    Divides(cap, b);
    TimesSuc(cap / b, b);
    if n + 1 <= cap / b { TimesMono(n + 1, cap / b, b); } else { TimesMono(cap / b + 1, n + 1, b); }
  }

  // ---- the grid invariant -------------------------------------------------------

  ghost predicate OnGrid(hs: seq<Extent>, b: nat) {
    forall i :: 0 <= i < |hs| ==> Mult(hs[i].off, b) && Mult(hs[i].size, b)
  }

  ghost predicate Grid(arena: ArenaState, blocks: map<Key, Block>, b: nat) {
    && b > 0
    && (forall k :: k in blocks ==> blocks[k].size == b && Mult(blocks[k].off, b))
    && OnGrid(arena.holes, b) && Mult(arena.high, b)
    && arena.used == Times(|blocks|, b)
  }

  ghost predicate Uniform(c: Cache, b: nat) { Grid(c.arena, c.blocks, b) }

  lemma TakeFromGrid(hs: seq<Extent>, i: nat, b: nat)
    requires OnGrid(hs, b) && i < |hs| && b <= hs[i].size
    ensures OnGrid(TakeFrom(hs, i, b), b)
  {
    hide Mult;
    MultUnit(b);
    MultSub(hs[i].size, b);
    MultAdd(hs[i].off, b, b);
  }

  lemma {:induction false} CoalesceGrid(hs: seq<Extent>, b: nat)
    requires OnGrid(hs, b)
    ensures OnGrid(Coalesce(hs), b)
  {
    hide Mult;
    var n := |hs| - 1;
    if n >= 0 {
      CoalesceGrid(hs[..n], b);
      var m := Coalesce(hs[..n]);
      if m != [] { MultAdd(m[|m| - 1].size, hs[n].size, b); }
    }
  }

  lemma FreeGrid(a: ArenaState, e: Extent, b: nat)
    requires OnGrid(a.holes, b) && Mult(e.off, b) && Mult(e.size, b)
    ensures OnGrid(Free(a, e.off, e.size).holes, b)
  {
    hide Mult, LowerBound;
    CoalesceGrid(Insert(a.holes, e), b);
  }

  lemma AbstractKeys(c: Cache)
    ensures Abstract(c).entries.Keys == c.blocks.Keys && |Abstract(c).entries| == |c.blocks|
  {
    assert Abstract(c).entries.Keys == c.blocks.Keys;
    assert |Abstract(c).entries| == |Abstract(c).entries.Keys| && |c.blocks| == |c.blocks.Keys|;
  }

  lemma EvictAbstract(c: Cache, k: Key)
    requires k in c.blocks
    ensures |Evict(c, k).blocks| == |c.blocks| - 1
    ensures Abstract(Evict(c, k)) ==
            Abstract(c).(entries := Abstract(c).entries - {k}, evictions := Abstract(c).evictions + 1)
  {
    hide Free;
    SizeRemove(c.blocks, k);
  }

  lemma EvictUniform(c: Cache, b: nat, k: Key)
    requires Inv(c) && Uniform(c, b) && k in c.blocks
    ensures Uniform(Evict(c, k), b)
  {
    hide Mult, Inv, Free, Times;
    EvictInv(c, k);
    MultUnit(b);
    FreeGrid(c.arena, c.blocks[k].Range(), b);
    EvictAbstract(c, k);
    TimesSuc(|c.blocks| - 1, b);
    FreeHigh(c.arena, c.blocks[k].off, c.blocks[k].size);
  }

  lemma MultUnit(b: nat)
    ensures Mult(b, b) && Mult(0, b)
  {
    assert b == 1 * b && 0 == 0 * b;
  }

  // ---- one request -------------------------------------------------------------

  function Slots(c: Cache, b: nat): nat { if b == 0 then 0 else c.arena.cap / b }

  lemma SlotsSame(c: Cache, d: Cache, b: nat)
    requires c.arena.cap == d.arena.cap
    ensures Slots(c, b) == Slots(d, b)
  {
  }

  lemma SpaceBounds(c: Cache)
    requires Inv(c)
    ensures c.arena.used <= c.arena.high <= c.arena.cap
    ensures c.arena.FreeSpace() == c.arena.cap - c.arena.used
    ensures NonEmpty(c.arena.holes)
    ensures c.arena.holes == [] ==> c.arena.used == c.arena.high
  {
  }

  /** Room for one more block is missing exactly when all C slots are taken. */
  lemma FullIff(c: Cache, b: nat)
    requires Inv(c) && Uniform(c, b)
    ensures |c.blocks| <= Slots(c, b)
    ensures c.arena.FreeSpace() < b <==> |c.blocks| == Slots(c, b)
  {
    SpaceBounds(c);
    hide Inv, Mult, Times, ArenaState.FreeSpace;
    var n := |c.blocks|;
    if n > 0 { FitsIff(c.arena.cap, b, n - 1); }
    FitsIff(c.arena.cap, b, n);
    TimesSuc(n, b);
  }

  /** At most one eviction makes room, and it happens exactly when the cache is full. */
  lemma VictimsUniform(c: Cache, b: nat, vs: seq<Key>)
    requires Inv(c) && Uniform(c, b) && Slots(c, b) >= 1 && Victims(c, b, vs)
    ensures |vs| == if |c.blocks| == Slots(c, b) then 1 else 0
    ensures Inv(EvictAll(c, vs)) && Uniform(EvictAll(c, vs), b)
    ensures EvictAll(c, vs).arena.cap == c.arena.cap
    ensures |EvictAll(c, vs).blocks| < Slots(c, b)
  {
    hide Inv, Uniform, Free;
    FullIff(c, b);
    EvictAllInv(c, vs);
    if vs != [] {
      var d := Evict(c, vs[0]);
      EvictInv(c, vs[0]);
      EvictUniform(c, b, vs[0]);
      EvictAbstract(c, vs[0]);
      FreeHigh(c.arena, c.blocks[vs[0]].off, c.blocks[vs[0]].size);
      FullIff(d, b);
      assert vs[1..] == [] && EvictAll(d, []) == d;
    }
  }

  /** On the grid every hole is large enough, so free bytes mean a successful allocation. */
  lemma AllocSucceeds(c: Cache, b: SizeT)
    requires Inv(c) && Uniform(c, b) && |c.blocks| < Slots(c, b) && c.arena.high + b < SIZE_LIMIT
    ensures Alloc(c.arena, b).1.Some?
  {
    FullIff(c, b);
    SpaceBounds(c);
    hide Inv, Mult, Times;
    if c.arena.holes != [] {
      MultPositive(c.arena.holes[0].size, b);
    }
  }

  lemma PlaceArena(c: Cache, b: SizeT)
    requires Inv(c) && Uniform(c, b) && Alloc(c.arena, b).1.Some? && c.arena.high + b < SIZE_LIMIT
    ensures var (a, off) := Alloc(c.arena, b);
            && OnGrid(a.holes, b) && Mult(a.high, b) && Mult(off.value, b)
            && a.used == c.arena.used + b
  {
    SoundTiles(c.arena, c.blocks, c.tick);
    TotalGrows(c.arena, c.blocks, b);
    hide Inv, Mult, Tiles;
    MultUnit(b);
    var i := FirstFit(c.arena.holes, b);
    if i < |c.arena.holes| {
      TakeFromGrid(c.arena.holes, i, b);
    } else {
      MultAdd(c.arena.high, b, b);
    }
  }

  lemma TotalGrows(arena: ArenaState, blocks: map<Key, Block>, b: SizeT)
    requires Tiles(arena, Live(blocks)) && Alloc(arena, b).1.Some? && arena.high + b < SIZE_LIMIT
    ensures Alloc(arena, b).0.used == arena.used + b
  {
  }

  lemma GridInsert(arena: ArenaState, blocks: map<Key, Block>, b: nat, a: ArenaState, k: Key, n: Block)
    requires Grid(arena, blocks, b) && k !in blocks && n.size == b && Mult(n.off, b)
    requires OnGrid(a.holes, b) && Mult(a.high, b) && a.used == arena.used + b
    ensures Grid(a, blocks[k := n], b)
  {
    hide Mult, Times, OnGrid;
    TimesSuc(|blocks|, b);
    SizeInsert(blocks, k, n);
  }

  lemma PlaceAbstract(c: Cache, b: SizeT, k: Key, priority: Int32)
    requires Place(c, k, b, priority).1
    ensures Abstract(Place(c, k, b, priority).0) == Load(Abstract(c), k, priority)
  {
    hide Alloc;
  }

  lemma PlaceUniform(c: Cache, b: SizeT, k: Key, priority: Int32)
    requires Inv(c) && Uniform(c, b) && |c.blocks| < Slots(c, b) && c.arena.high + b < SIZE_LIMIT
    requires k !in c.blocks
    ensures Place(c, k, b, priority).1
    ensures Uniform(Place(c, k, b, priority).0, b)
  {
    hide Sound, Mult, Alloc, Grid, OnGrid;
    AllocSucceeds(c, b);
    PlaceArena(c, b);
    var (a, off) := Alloc(c.arena, b);
    GridInsert(c.arena, c.blocks, b, a, k, Block(off.value, b, c.tick + 1, priority));
  }

  lemma EvictChoice(c: Cache, b: nat, k: Key, vs: seq<Key>)
    requires Inv(c) && Uniform(c, b) && Slots(c, b) >= 1 && k !in c.blocks && Victims(c, b, vs)
    ensures PlainChoice(Abstract(c), Slots(c, b), k, vs)
    ensures Abstract(EvictAll(c, vs)) ==
            if vs == [] then Abstract(c)
            else Abstract(c).(entries := Abstract(c).entries - {vs[0]}, evictions := Abstract(c).evictions + 1)
  {
    hide Inv, Uniform, Free, Slots;
    VictimsUniform(c, b, vs);
    FullIff(c, b);
    AbstractKeys(c);
    if vs != [] {
      EvictAbstract(c, vs[0]);
      assert EvictAll(Evict(c, vs[0]), vs[1..]) == Evict(c, vs[0]);
    }
  }

  lemma RefreshUniform(c: Cache, b: nat, k: Key, priority: Int32)
    requires Uniform(c, b) && k in c.blocks
    ensures Uniform(Refresh(c, k, priority), b)
  {
    hide Mult, Times, OnGrid;
    SizeInsert(c.blocks, k, Refresh(c, k, priority).blocks[k]);
  }

  lemma RefreshAbstract(c: Cache, k: Key, priority: Int32)
    requires k in c.blocks
    ensures Abstract(Refresh(c, k, priority)) ==
            Abstract(c).(entries := Abstract(c).entries[k := Entry(c.tick + 1, priority)], tick := c.tick + 1)
  {
  }

  lemma HitRefinesPlain(c: Cache, b: SizeT, k: Key, priority: Int32)
    requires Uniform(c, b) && k in c.blocks
    ensures Uniform(Ensure(c, k, b, priority, []).0, b)
    ensures Abstract(Ensure(c, k, b, priority, []).0) == PlainEnsure(Abstract(c), k, priority, [])
  {
    var h := Request(c);
    h := h.(stats := h.stats.(hits := h.stats.hits + 1));
    hide Grid, Refresh;
    RefreshUniform(h, b, k, priority);
    RefreshAbstract(h, k, priority);
  }

  lemma MissRefinesPlain(c: Cache, b: SizeT, k: Key, priority: Int32, vs: seq<Key>)
    requires Inv(c) && Uniform(c, b) && Slots(c, b) >= 1 && c.arena.high + b < SIZE_LIMIT
    requires k !in c.blocks && Victims(c, b, vs)
    ensures var (d, ok) := Place(EvictAll(c, vs), k, b, priority);
            ok && Uniform(d, b) && Abstract(d) == PlainEnsure(Abstract(c), k, priority, vs)
    ensures |vs| <= 1 && PlainChoice(Abstract(c), Slots(c, b), k, vs)
  {
    hide Abstract, Place, EvictAll, Victims, PlainChoice, Slots, Inv, Uniform;
    AbstractKeys(c);
    EvictChoice(c, b, k, vs);
    VictimsUniform(c, b, vs);
    EvictAllInv(c, vs);
    SlotsSame(c, EvictAll(c, vs), b);
    PlaceUniform(EvictAll(c, vs), b, k, priority);
    PlaceAbstract(EvictAll(c, vs), b, k, priority);
  }

  /**
   With all requests of size b and C >= 1, `Ensure` never fails, evicts at most one block,
   and does to the abstract cache exactly what a plain cache of C entries does.
   */
  lemma EnsureRefinesPlain(c: Cache, b: SizeT, k: Key, priority: Int32, vs: seq<Key>)
    requires Inv(c) && Uniform(c, b) && Slots(c, b) >= 1 && NoWrap(c, k, b)
    requires Choice(c, k, b, vs)
    ensures Ensure(c, k, b, priority, vs).1 && |vs| <= 1
    ensures Uniform(Ensure(c, k, b, priority, vs).0, b)
    ensures PlainChoice(Abstract(c), Slots(c, b), k, vs)
    ensures Abstract(Ensure(c, k, b, priority, vs).0) == PlainEnsure(Abstract(c), k, priority, vs)
  {
    hide Sound, Grid, Place, EvictAll, Victims, PlainEnsure, Refresh;
    if k in c.blocks {
      HitRefinesPlain(c, b, k, priority);
    } else {
      MissRefinesPlain(Request(c), b, k, priority, vs);
    }
  }

  // ---- whole runs ----------------------------------------------------------

  /** Loads either stay in the cache or are evicted, and nothing is evicted before it is full. */
  ghost predicate Counted(p: Plain, slots: nat) {
    && p.loads == |p.entries| + p.evictions
    && |p.entries| <= slots
    && (p.evictions > 0 ==> |p.entries| == slots)
  }

  lemma PlainEnsureCounted(p: Plain, slots: nat, k: Key, priority: Int32, vs: seq<Key>)
    requires Counted(p, slots) && slots >= 1 && PlainChoice(p, slots, k, vs)
    ensures Counted(PlainEnsure(p, k, priority, vs), slots)
  {
    var e := Entry(p.tick + 1, priority);
    SizeInsert(p.entries, k, e);
    if k !in p.entries && vs != [] {
      SizeRemove(p.entries, vs[0]);
      SizeInsert(p.entries - {vs[0]}, k, e);
    }
  }

  /** All requests have the same size; touching and clearing are free. */
  predicate Sized(op: CacheOp, b: nat) {
    op.Ensuring? || op.FallingBack? ==> op.nbytes == b
  }

  ghost predicate UniformOk(c: Cache, b: nat) { Inv(c) && Uniform(c, b) && Slots(c, b) >= 1 }

  lemma EnsureUniformOk(c: Cache, b: SizeT, k: Key, priority: Int32, vs: seq<Key>)
    requires UniformOk(c, b) && NoWrap(c, k, b) && Choice(c, k, b, vs)
    ensures UniformOk(Ensure(c, k, b, priority, vs).0, b)
    ensures Ensure(c, k, b, priority, vs).1 && |vs| <= 1
  {
    hide Inv, Uniform, Abstract, PlainEnsure, Choice, Ensure, PlainChoice;
    EnsureInv(c, k, b, priority, vs);
    EnsureRefinesPlain(c, b, k, priority, vs);
  }

  lemma RefreshUniformOk(c: Cache, b: SizeT, k: Key, priority: Int32)
    requires UniformOk(c, b) && k in c.blocks
    ensures UniformOk(Refresh(c, k, priority), b)
  {
    hide Sound, Grid;
    RefreshInv(c, k, priority);
    RefreshUniform(c, b, k, priority);
  }

  /** Clearing leaves one hole from 0 to the high-water mark, and both are on the grid. */
  lemma ClearUniformOk(c: Cache, b: SizeT)
    requires UniformOk(c, b)
    ensures UniformOk(Clear(c), b)
  {
    ClearInv(c);
    hide Inv, Mult;
    MultUnit(b);
    assert Times(0, b) == 0;
  }

  function WithFallback(c: Cache): Cache { c.(stats := c.stats.(fallbacks := c.stats.fallbacks + 1)) }

  /** Each operation keeps the grid, and a request succeeds and evicts at most one block. */
  lemma StepUniformOk(c: Cache, b: SizeT, op: CacheOp)
    requires UniformOk(c, b) && CachePossible(c, op) && Sized(op, b)
    ensures UniformOk(CacheStep(c, op), b)
    ensures op.Ensuring? ==> Ensure(c, op.key, b, op.priority, op.victims).1 && |op.victims| <= 1
    ensures op.FallingBack? ==> SyncFallback(c, op.key, b, op.priority, op.victims).1 && |op.victims| <= 1
  {
    hide Sound, Grid, Victims, Ensure, Refresh, Clear;
    match op
    case Ensuring(k, n, p, vs) => EnsureUniformOk(c, b, k, p, vs);
    case FallingBack(k, n, p, vs) =>
      if k !in c.blocks { EnsureUniformOk(WithFallback(c), b, k, p, vs); }
    case Touching(k) =>
      if k in c.blocks { RefreshUniformOk(c, b, k, c.blocks[k].priority); }
    case Clearing => ClearUniformOk(c, b);
  }

  lemma EmptyUniformOk(budget: SizeT, b: nat)
    requires 0 < b <= budget
    ensures UniformOk(Empty(budget), b)
  {
    EmptyInv(budget);
    hide Inv;
    MultUnit(b);
    FitsIff(budget, b, 0);
  }

  lemma {:induction false} RunUniform(cs: seq<Cache>, ops: seq<CacheOp>, b: SizeT, i: nat)
    requires CacheRun(cs, ops) && i < |cs| && cs[0] == Empty(cs[0].arena.cap) && 0 < b <= cs[0].arena.cap
    requires forall j :: 0 <= j < |ops| ==> Sized(ops[j], b)
    ensures UniformOk(cs[i], b)
  {
    if i == 0 {
      EmptyUniformOk(cs[0].arena.cap, b);
    } else {
      hide UniformOk, CacheStep, CachePossible, Sized;
      RunUniform(cs, ops, b, i - 1);
      StepUniformOk(cs[i - 1], b, ops[i - 1]);
    }
  }

  /** In every run over one block size, clears included, no request fails and none evicts more than one block. */
  lemma RunNeverFails(cs: seq<Cache>, ops: seq<CacheOp>, b: SizeT, i: nat)
    requires CacheRun(cs, ops) && i < |ops| && cs[0] == Empty(cs[0].arena.cap) && 0 < b <= cs[0].arena.cap
    requires forall j :: 0 <= j < |ops| ==> Sized(ops[j], b)
    ensures |cs[i].blocks| <= cs[0].arena.cap / b
    ensures var op := ops[i];
            && (op.Ensuring? ==> Ensure(cs[i], op.key, b, op.priority, op.victims).1 && |op.victims| <= 1)
            && (op.FallingBack? ==> SyncFallback(cs[i], op.key, b, op.priority, op.victims).1 && |op.victims| <= 1)
  {
    RunUniform(cs, ops, b, i);
    CacheRunInv(cs, ops, i);
    hide CacheStep, CachePossible, Sized, Ensure, SyncFallback, Inv, Uniform;
    StepUniformOk(cs[i], b, ops[i]);
    FullIff(cs[i], b);
  }

  // ---- refinement over runs --------------------------------------------------------

  function PlainStep(p: Plain, op: CacheOp): Plain {
    match op
    case Ensuring(k, _, priority, vs) => PlainEnsure(p, k, priority, vs)
    case FallingBack(k, _, priority, vs) => if k in p.entries then p else PlainEnsure(p, k, priority, vs)
    case Touching(k) =>
      if k in p.entries then
        p.(entries := p.entries[k := Entry(p.tick + 1, p.entries[k].priority)], tick := p.tick + 1)
      else p
    case Clearing => p.(entries := map[], tick := 0)
  }

  /** The victims are ones a plain cache of `slots` entries could choose. */
  ghost predicate PlainPossible(p: Plain, slots: nat, op: CacheOp) {
    op.Ensuring? || op.FallingBack? ==> PlainChoice(p, slots, op.key, op.victims)
  }

  function PlainRun(ops: seq<CacheOp>): Plain {
    if ops == [] then Plain(map[], 0, 0, 0) else PlainStep(PlainRun(ops[..|ops| - 1]), ops[|ops| - 1])
  }

  lemma WithFallbackSame(c: Cache, b: nat, k: Key, n: SizeT)
    ensures Abstract(WithFallback(c)) == Abstract(c) && Slots(WithFallback(c), b) == Slots(c, b)
    ensures UniformOk(c, b) ==> UniformOk(WithFallback(c), b)
    ensures NoWrap(c, k, n) ==> NoWrap(WithFallback(c), k, n)
  {
    hide Sound, Grid;
  }

  lemma StepRefinesPlain(c: Cache, b: SizeT, op: CacheOp)
    requires UniformOk(c, b) && CachePossible(c, op) && Sized(op, b)
    ensures PlainPossible(Abstract(c), Slots(c, b), op)
    ensures Abstract(CacheStep(c, op)) == PlainStep(Abstract(c), op)
  {
    hide Inv, Uniform, Victims, Ensure, PlainEnsure, PlainChoice, Slots, Refresh;
    AbstractKeys(c);
    match op
    case Ensuring(k, n, p, vs) => EnsureRefinesPlain(c, b, k, p, vs);
    case FallingBack(k, n, p, vs) =>
      WithFallbackSame(c, b, k, n);
      EnsureRefinesPlain(WithFallback(c), b, k, p, vs);
    case Touching(k) => if k in c.blocks { RefreshAbstract(c, k, c.blocks[k].priority); }
    case Clearing => assert Abstract(Clear(c)).entries == map[];
  }

  /**
   In every run over one block size, clears included, the byte cache is a plain cache of
   C = budget / b entries: its entries, use ticks, priorities and counters are those of the
   plain run, whose every eviction is one the plain cache could make.
   */
  lemma {:induction false} RunRefinesPlain(cs: seq<Cache>, ops: seq<CacheOp>, b: SizeT, i: nat)
    requires CacheRun(cs, ops) && i < |cs| && cs[0] == Empty(cs[0].arena.cap) && 0 < b <= cs[0].arena.cap
    requires forall j :: 0 <= j < |ops| ==> Sized(ops[j], b)
    ensures Abstract(cs[i]) == PlainRun(ops[..i])
    ensures i < |ops| ==> PlainPossible(PlainRun(ops[..i]), cs[0].arena.cap / b, ops[i])
  {
    hide UniformOk, CacheStep, CachePossible, Sized, PlainStep, Inv, PlainPossible;
    if i == 0 {
      assert Abstract(cs[0]).entries == map[];
    } else {
      RunRefinesPlain(cs, ops, b, i - 1);
      RunUniform(cs, ops, b, i - 1);
      StepRefinesPlain(cs[i - 1], b, ops[i - 1]);
      assert ops[..i][..i - 1] == ops[..i - 1];
    }
    if i < |ops| {
      RunUniform(cs, ops, b, i);
      CacheRunInv(cs, ops, i);
      StepRefinesPlain(cs[i], b, ops[i]);
    }
  }

  // ---- counting --------------------------------------------------------------

  lemma StepCounted(c: Cache, b: SizeT, op: CacheOp)
    requires UniformOk(c, b) && CachePossible(c, op) && Sized(op, b) && !op.Clearing?
    requires Counted(Abstract(c), Slots(c, b))
    ensures Counted(Abstract(CacheStep(c, op)), Slots(c, b))
  {
    hide Sound, Grid, Counted, Victims, Ensure, PlainEnsure, PlainChoice;
    match op
    case Ensuring(k, n, p, vs) =>
      EnsureRefinesPlain(c, b, k, p, vs);
      PlainEnsureCounted(Abstract(c), Slots(c, b), k, p, vs);
    case FallingBack(k, n, p, vs) =>
      if k !in c.blocks {
        EnsureRefinesPlain(WithFallback(c), b, k, p, vs);
        PlainEnsureCounted(Abstract(c), Slots(c, b), k, p, vs);
      }
    case Touching(k) =>
      if k in c.blocks { RefreshCounted(c, k, c.blocks[k].priority, Slots(c, b)); }
  }

  lemma RefreshCounted(c: Cache, k: Key, priority: Int32, slots: nat)
    requires k in c.blocks && Counted(Abstract(c), slots)
    ensures Counted(Abstract(Refresh(c, k, priority)), slots)
  {
    AbstractKeys(c);
    AbstractKeys(Refresh(c, k, priority));
    assert Refresh(c, k, priority).blocks.Keys == c.blocks.Keys;
  }

  /** In any run without `clear`, evictions = max(0, loads - C). */
  lemma {:induction false} RunCounts(cs: seq<Cache>, ops: seq<CacheOp>, b: SizeT, i: nat)
    requires CacheRun(cs, ops) && i < |cs| && cs[0] == Empty(cs[0].arena.cap) && 0 < b <= cs[0].arena.cap
    requires forall j :: 0 <= j < |ops| ==> Sized(ops[j], b) && !ops[j].Clearing?
    ensures Counted(Abstract(cs[i]), cs[0].arena.cap / b)
    ensures var slots := cs[0].arena.cap / b; var loads := cs[i].stats.loads;
            cs[i].stats.evictions == if loads > slots then loads - slots else 0
  {
    hide UniformOk, Abstract, Counted, CacheStep, CachePossible, Sized, Inv;
    if i == 0 {
      EmptyCounted(cs[0].arena.cap, cs[0].arena.cap / b);
    } else {
      RunCounts(cs, ops, b, i - 1);
      RunUniform(cs, ops, b, i - 1);
      CacheRunInv(cs, ops, i - 1);
      StepCounted(cs[i - 1], b, ops[i - 1]);
    }
    CountsFollow(cs[i], cs[0].arena.cap / b);
  }

  lemma EmptyCounted(budget: SizeT, slots: nat)
    ensures Counted(Abstract(Empty(budget)), slots)
  {
    assert Abstract(Empty(budget)).entries == map[];
  }

  lemma CountsFollow(c: Cache, slots: nat)
    requires Counted(Abstract(c), slots)
    ensures c.stats.evictions == if c.stats.loads > slots then c.stats.loads - slots else 0
  {
  }
}
