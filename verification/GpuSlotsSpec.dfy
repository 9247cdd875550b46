/**
 ensure_resident and the token loop of run_triton_prefetch (modal_step4_triton_kernel.py) on
 values: a slot table kept in lockstep with the look-ahead cache, and the pool of expert
 blocks the table points into. Copies are modelled as done when issued.
 */
module GpuSlotsSpec {
  import opened SlotTables
  import opened LookAheadSpec

  datatype Gpu<W> = Gpu(cache: Experts, slotOf: map<int, int>, free: seq<nat>, pool: seq<W>, evictions: nat)

  /** The slots in use: table entries other than -1. */
  function UsedSlots(slotOf: map<int, int>): map<int, nat> {
    map e | e in slotOf && slotOf[e] >= 0 :: slotOf[e]
  }

  /** No expert has a slot yet. */
  function NoSlots(n: nat): (m: map<int, int>)
    ensures forall e :: e in m <==> 0 <= e < n
    ensures forall e :: e in m ==> m[e] == -1
  {
    if n == 0 then map[] else NoSlots(n - 1)[n - 1 := -1]
  }

  function Start<W>(capacity: nat, topK: int, numExperts: nat, blank: W): Gpu<W> {
    Gpu(New(capacity, topK), NoSlots(numExperts),
        seq(capacity, i requires 0 <= i < capacity => i), seq(capacity, i requires 0 <= i < capacity => blank), 0)
  }

  // ---- one call ----------------------------------------------------------

  /** Free a slot by evicting `v`. */
  function FreeSlot<W>(g: Gpu<W>, v: int, token: int): Gpu<W>
    requires v in g.slotOf && g.slotOf[v] >= 0
  {
    Gpu(Evict(g.cache, v, token), g.slotOf[v := -1], g.free + [g.slotOf[v]], g.pool, g.evictions + 1)
  }

  /** Put `e` in the first free slot and tell the cache; `hidden` is what cache.prefetch would evict. */
  function FillSlot<W>(g: Gpu<W>, e: int, token: int, weights: int -> W, hidden: int): Gpu<W>
    requires g.free != [] && g.free[0] < |g.pool|
  {
    var slot := g.free[0];
    Gpu(Prefetch(g.cache, e, token, hidden), g.slotOf[e := slot], g.free[1..], g.pool[slot := weights(e)], g.evictions)
  }

  ghost predicate SlotChoice<W>(g: Gpu<W>, e: int, v: int) {
    e !in g.cache.vram && g.free == [] && g.cache.vram != {} ==> IsVictim(g.cache, v)
  }

  // ---- lockstep ------------------------------------------------------------------

  /**
   The slot table maps exactly the resident experts, injectively, to slots; those and the
   free slots partition the pool; and each resident expert's slot holds its weights.
   */
  ghost predicate Lockstep<W(!new)>(g: Gpu<W>, numExperts: nat, weights: int -> W) {
    && |g.pool| == g.cache.capacity
    && (forall e :: e in g.slotOf <==> 0 <= e < numExperts)
    && (forall e :: e in g.slotOf ==> g.slotOf[e] >= -1)
    && UsedSlots(g.slotOf).Keys == g.cache.vram
    && Table(|g.pool|, g.free, UsedSlots(g.slotOf))
    && Loaded(g, weights)
  }

  ghost predicate Loaded<W(!new)>(g: Gpu<W>, weights: int -> W) {
    forall e :: e in g.slotOf && 0 <= g.slotOf[e] < |g.pool| ==> g.pool[g.slotOf[e]] == weights(e)
  }

  lemma LockstepFacts<W(!new)>(g: Gpu<W>, n: nat, weights: int -> W)
    requires Lockstep(g, n, weights)
    ensures |g.free| + |g.cache.vram| == g.cache.capacity == |g.pool|
    ensures forall e :: e in g.cache.vram ==> e in g.slotOf && 0 <= g.slotOf[e] < |g.pool|
    ensures forall i :: 0 <= i < |g.free| ==> g.free[i] < |g.pool|
    ensures forall e :: e in g.slotOf && e !in g.cache.vram ==> g.slotOf[e] == -1
  {
    var u := UsedSlots(g.slotOf);
    assert |u| == |u.Keys|;
    forall e | e in g.cache.vram ensures e in g.slotOf && 0 <= g.slotOf[e] < |g.pool| {
      assert e in u.Keys && u[e] == g.slotOf[e];
    }
    forall e | e in g.slotOf && e !in g.cache.vram ensures g.slotOf[e] == -1 {
      assert e !in u.Keys;
    }
  }

  lemma StartLockstep<W(!new)>(capacity: nat, topK: int, n: nat, blank: W, weights: int -> W)
    ensures Lockstep(Start(capacity, topK, n, blank), n, weights)
  {
    var g := Start(capacity, topK, n, blank);
    hide NoSlots;
    assert UsedSlots(g.slotOf) == map[];
    forall s | 0 <= s < capacity ensures s in g.free { assert g.free[s] == s; }
  }

  lemma FreeUsed(slotOf: map<int, int>, v: int)
    requires v in slotOf && slotOf[v] >= 0
    ensures v in UsedSlots(slotOf) && UsedSlots(slotOf)[v] == slotOf[v]
    ensures UsedSlots(slotOf[v := -1]) == UsedSlots(slotOf) - {v}
  {
  }

  lemma FreeTable(slots: nat, free: seq<nat>, slotOf: map<int, int>, v: int)
    requires Table(slots, free, UsedSlots(slotOf)) && v in slotOf && slotOf[v] >= 0
    ensures Table(slots, free + [slotOf[v]], UsedSlots(slotOf[v := -1]))
    ensures UsedSlots(slotOf[v := -1]).Keys == UsedSlots(slotOf).Keys - {v}
  {
    hide Table, UsedSlots;
    FreeUsed(slotOf, v);
    Release(slots, free, UsedSlots(slotOf), v);
  }

  lemma FreeLoaded<W(!new)>(g: Gpu<W>, weights: int -> W, v: int, token: int)
    requires Loaded(g, weights) && v in g.slotOf && g.slotOf[v] >= 0
    ensures Loaded(FreeSlot(g, v, token), weights)
  {
  }

  lemma FreeSlotLockstep<W(!new)>(g: Gpu<W>, n: nat, weights: int -> W, v: int, token: int)
    requires Lockstep(g, n, weights) && v in g.cache.vram
    ensures v in g.slotOf && g.slotOf[v] >= 0
    ensures Lockstep(FreeSlot(g, v, token), n, weights)
  {
    hide Table, Loaded, UsedSlots;
    LockstepFacts(g, n, weights);
    FreeLoaded(g, weights, v, token);
    FreeTable(|g.pool|, g.free, g.slotOf, v);
  }

  lemma FillUsed(slotOf: map<int, int>, e: int, slot: nat)
    requires e in slotOf && slotOf[e] < 0
    ensures UsedSlots(slotOf[e := slot]) == UsedSlots(slotOf)[e := slot] && e !in UsedSlots(slotOf)
  {
  }

  lemma FillLoaded<W(!new)>(g: Gpu<W>, n: nat, weights: int -> W, e: int, token: int, hidden: int)
    requires Lockstep(g, n, weights) && g.free != [] && g.free[0] < |g.pool|
    ensures Loaded(FillSlot(g, e, token, weights, hidden), weights)
  {
    LockstepFacts(g, n, weights);
    hide Prefetch;
    var slot, u := g.free[0], UsedSlots(g.slotOf);
    assert slot in g.free;
    NotInUse(u, slot);
    forall x | x in g.slotOf && g.slotOf[x] >= 0 ensures g.slotOf[x] != slot {
      assert x in u && u[x] == g.slotOf[x];
    }
  }

  lemma PrefetchWithRoom(c: Experts, e: int, token: int, hidden: int)
    requires e !in c.vram && |c.vram| < c.capacity
    ensures !Full(Tick(c))
    ensures var d := Prefetch(c, e, token, hidden); d.vram == c.vram + {e} && d.capacity == c.capacity
  {
  }

  lemma FillTable(slots: nat, free: seq<nat>, slotOf: map<int, int>, e: int)
    requires Table(slots, free, UsedSlots(slotOf)) && free != [] && e in slotOf && slotOf[e] < 0
    ensures Table(slots, free[1..], UsedSlots(slotOf[e := free[0]]))
    ensures UsedSlots(slotOf[e := free[0]]).Keys == UsedSlots(slotOf).Keys + {e}
  {
    hide Table, UsedSlots;
    FillUsed(slotOf, e, free[0]);
    Occupy(slots, free, UsedSlots(slotOf), 0, e);
    assert Without(free, 0) == free[1..];
  }

  /** Filling a slot keeps lockstep, and cache.prefetch evicts nothing behind the table's back. */
  lemma FillSlotLockstep<W(!new)>(g: Gpu<W>, n: nat, weights: int -> W, e: int, token: int, hidden: int)
    requires Lockstep(g, n, weights) && g.free != [] && e !in g.cache.vram && 0 <= e < n
    ensures g.free[0] < |g.pool|
    ensures Lockstep(FillSlot(g, e, token, weights, hidden), n, weights)
    ensures FillSlot(g, e, token, weights, hidden).cache.vram == g.cache.vram + {e}
    ensures !Full(Tick(g.cache))
  {
    hide Table, Loaded, Prefetch, Full, Tick, UsedSlots;
    LockstepFacts(g, n, weights);
    FillLoaded(g, n, weights, e, token, hidden);
    PrefetchWithRoom(g.cache, e, token, hidden);
    FillTable(|g.pool|, g.free, g.slotOf, e);
  }

  // ---- ensure_resident --------------------------------------------------------

  /** True when `e` was already resident. `v` is the victim of a possible eviction. */
  function EnsureResident<W>(g: Gpu<W>, e: int, token: int, weights: int -> W, v: int): (Gpu<W>, bool) {
    if e in g.cache.vram then (g, true)
    else if g.free == [] && g.cache.vram == {} then (g, false)
    else
      var h := if g.free == [] && v in g.slotOf && g.slotOf[v] >= 0 then FreeSlot(g, v, token) else g;
      if h.free != [] && h.free[0] < |h.pool| then (FillSlot(h, e, token, weights, v), false) else (h, false)
  }

  /** What one call does to the resident set, and that it keeps lockstep. */
  lemma EnsureLockstep<W(!new)>(g: Gpu<W>, n: nat, e: int, token: int, weights: int -> W, v: int)
    requires Lockstep(g, n, weights) && 0 <= e < n && SlotChoice(g, e, v)
    ensures var (h, hit) := EnsureResident(g, e, token, weights, v);
            && Lockstep(h, n, weights)
            && h.cache.capacity == g.cache.capacity && h.cache.topK == g.cache.topK && h.cache.rank == g.cache.rank
            && (hit <==> e in g.cache.vram) && (hit ==> h == g)
            && h.cache.vram == (if hit || g.cache.capacity == 0 then g.cache.vram
                                else if g.free == [] then g.cache.vram - {v} + {e} else g.cache.vram + {e})
            && h.evictions == g.evictions + (if !hit && g.free == [] && g.cache.capacity != 0 then 1 else 0)
  {
    LockstepFacts(g, n, weights);
    if e !in g.cache.vram && !(g.free == [] && g.cache.vram == {}) {
      hide Lockstep;
      if g.free == [] {
        FreeSlotLockstep(g, n, weights, v, token);
        FillSlotLockstep(FreeSlot(g, v, token), n, weights, e, token, v);
      } else {
        FillSlotLockstep(g, n, weights, e, token, v);
      }
    }
  }

  // ---- one phase: ensure_resident over a list ------------------------------------

  datatype Phase<W> = Phase(gpu: Gpu<W>, misses: nat)

  /** The first `k` calls over `es`; `vs` are the victims. */
  function PhaseTo<W>(g: Gpu<W>, es: seq<int>, token: int, weights: int -> W, vs: seq<int>, k: nat): Phase<W>
    requires k <= |es| && k <= |vs|
  {
    if k == 0 then Phase(g, 0)
    else
      var before := PhaseTo(g, es, token, weights, vs, k - 1);
      var (h, hit) := EnsureResident(before.gpu, es[k - 1], token, weights, vs[k - 1]);
      Phase(h, before.misses + if hit then 0 else 1)
  }

  ghost predicate PhaseChoices<W>(g: Gpu<W>, es: seq<int>, token: int, weights: int -> W, vs: seq<int>, k: nat)
    requires k <= |es| && k <= |vs|
  {
    forall i :: 0 <= i < k ==> SlotChoice(PhaseTo(g, es, token, weights, vs, i).gpu, es[i], vs[i])
  }

  predicate Known(es: seq<int>, n: nat) { forall i :: 0 <= i < |es| ==> 0 <= es[i] < n }

  ghost predicate SameSetup(c: Experts, d: Experts) {
    c.capacity == d.capacity && c.topK == d.topK && c.rank == d.rank
  }

  lemma PhaseSuc<W(!new)>(g: Gpu<W>, n: nat, es: seq<int>, token: int, weights: int -> W, vs: seq<int>, k: nat)
    requires 0 < k <= |es| && k <= |vs| && Known(es, n) && PhaseChoices(g, es, token, weights, vs, k)
    requires Lockstep(PhaseTo(g, es, token, weights, vs, k - 1).gpu, n, weights)
    ensures var b := PhaseTo(g, es, token, weights, vs, k - 1);
            var r := PhaseTo(g, es, token, weights, vs, k);
            var e, v := es[k - 1], vs[k - 1];
            && PhaseChoices(g, es, token, weights, vs, k - 1) && SlotChoice(b.gpu, e, v)
            && Lockstep(r.gpu, n, weights) && SameSetup(b.gpu.cache, r.gpu.cache)
            && r.misses == b.misses + (if e in b.gpu.cache.vram then 0 else 1)
            && (e in b.gpu.cache.vram ==> r.gpu == b.gpu)
            && r.gpu.cache.vram == (if e in b.gpu.cache.vram || b.gpu.cache.capacity == 0 then b.gpu.cache.vram
                                    else if b.gpu.free == [] then b.gpu.cache.vram - {v} + {e}
                                    else b.gpu.cache.vram + {e})
  {
    hide Lockstep, SlotChoice, EnsureResident;
    EnsureLockstep(PhaseTo(g, es, token, weights, vs, k - 1).gpu, n, es[k - 1], token, weights, vs[k - 1]);
  }

  lemma {:induction false} PhaseLockstep<W(!new)>(g: Gpu<W>, n: nat, es: seq<int>, token: int, weights: int -> W,
                                                  vs: seq<int>, k: nat)
    requires k <= |es| && k <= |vs| && Known(es, n) && PhaseChoices(g, es, token, weights, vs, k)
    requires Lockstep(g, n, weights)
    ensures Lockstep(PhaseTo(g, es, token, weights, vs, k).gpu, n, weights)
    ensures SameSetup(g.cache, PhaseTo(g, es, token, weights, vs, k).gpu.cache)
  {
    hide Lockstep, SlotChoice, EnsureResident;
    if k > 0 {
      PhaseLockstep(g, n, es, token, weights, vs, k - 1);
      PhaseSuc(g, n, es, token, weights, vs, k);
    }
  }
}
