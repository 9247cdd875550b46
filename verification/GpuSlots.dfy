/** The slot table and pool of run_triton_prefetch (modal_step4_triton_kernel.py) updated in place. */
module GpuSlots {
  import opened LookAheadSpec
  import opened LookAheads
  import opened GpuSlotsSpec
  import opened GpuMisses

  lemma PrefetchIgnores(c: Experts, e: int, token: int, v: int, w: int)
    requires !Full(Tick(c))
    ensures Prefetch(c, e, token, v) == Prefetch(c, e, token, w)
  {
  }

  lemma {:induction false} PhaseExtend<W>(g: Gpu<W>, es: seq<int>, token: int, weights: int -> W, vs: seq<int>,
                                          v: int, k: nat)
    requires k <= |es| && k <= |vs|
    ensures PhaseTo(g, es, token, weights, vs + [v], k) == PhaseTo(g, es, token, weights, vs, k)
  {
    hide EnsureResident;
    if k > 0 { PhaseExtend(g, es, token, weights, vs, v, k - 1); }
  }

  lemma PhaseMore<W>(g: Gpu<W>, es: seq<int>, token: int, weights: int -> W, vs: seq<int>, v: int)
    requires |vs| < |es| && PhaseChoices(g, es, token, weights, vs, |vs|)
    requires SlotChoice(PhaseTo(g, es, token, weights, vs, |vs|).gpu, es[|vs|], v)
    ensures PhaseChoices(g, es, token, weights, vs + [v], |vs| + 1)
    ensures var b := PhaseTo(g, es, token, weights, vs, |vs|);
            var (h, hit) := EnsureResident(b.gpu, es[|vs|], token, weights, v);
            PhaseTo(g, es, token, weights, vs + [v], |vs| + 1) == Phase(h, b.misses + if hit then 0 else 1)
  {
    hide EnsureResident, SlotChoice;
    PhaseExtend(g, es, token, weights, vs, v, |vs|);
    forall i | 0 <= i < |vs| + 1
      ensures SlotChoice(PhaseTo(g, es, token, weights, vs + [v], i).gpu, es[i], (vs + [v])[i])
    {
      PhaseExtend(g, es, token, weights, vs, v, i);
    }
  }

  lemma PhaseNone<W>(g: Gpu<W>, es: seq<int>, token: int, weights: int -> W)
    ensures PhaseChoices(g, es, token, weights, [], 0)
    ensures PhaseTo(g, es, token, weights, [], 0) == Phase(g, 0)
  {
  }

  class GpuPool<W(!new)> {
    const cache: ExpertCache
    const numExperts: nat
    const weights: int -> W
    const pool: array<W>
    var slotOf: map<int, int>
    var freeSlots: seq<nat>
    var evictions: nat

    ghost function State(): Gpu<W>
      reads this, cache, pool
    {
      Gpu(cache.State(), slotOf, freeSlots, pool[..], evictions)
    }

    constructor (capacity: nat, topK: int, n: nat, blank: W, w: int -> W)
      ensures fresh(cache) && fresh(pool) && numExperts == n && weights == w
      ensures State() == Start(capacity, topK, n, blank)
    {
      cache := new ExpertCache(capacity, topK);
      pool := new W[capacity](_ => blank);
      numExperts, weights := n, w;
      slotOf, freeSlots, evictions := NoSlots(n), seq(capacity, i requires 0 <= i < capacity => i), 0;
    }

    /** Bring `e` into a slot unless it is resident; true on a hit. */
    method Ensure(e: int, token: int) returns (hit: bool, ghost v: int)
      requires Lockstep(State(), numExperts, weights) && 0 <= e < numExperts
      modifies this, cache, pool
      ensures SlotChoice(old(State()), e, v)
      ensures (State(), hit) == EnsureResident(old(State()), e, token, weights, v)
      ensures Lockstep(State(), numExperts, weights)
    {
      hide Lockstep, IsVictim, LookAheadSpec.Prefetch, LookAheadSpec.Evict, Full, ScoreLess;
      v := 0;
      ghost var g := State();
      if e in cache.vram { return true, 0; }
      LockstepFacts(g, numExperts, weights);
      if freeSlots == [] {
        var victim := cache.Evict(token);
        if victim.None? { return false, 0; }
        v := victim.value;
        VictimResident(g.cache, v);
        FreeSlotLockstep(g, numExperts, weights, v, token);
        freeSlots := freeSlots + [slotOf[victim.value]];
        slotOf := slotOf[victim.value := -1];
        evictions := evictions + 1;
        assert State() == FreeSlot(g, v, token);
      }
      ghost var h := State();
      assert SlotChoice(g, e, v);
      LockstepFacts(h, numExperts, weights);
      FillSlotLockstep(h, numExperts, weights, e, token, v);
      var slot := freeSlots[0];
      freeSlots := freeSlots[1..];
      slotOf := slotOf[e := slot];
      pool[slot] := weights(e);
      ghost var hidden := cache.Prefetch(e, token);
      PrefetchIgnores(h.cache, e, token, v, hidden);
      assert State() == FillSlot(h, e, token, weights, v);
      hit := false;
    }

    /** ensure_resident over a list, counting misses. */
    method EnsureAll(es: seq<int>, token: int) returns (misses: nat, ghost vs: seq<int>)
      requires Lockstep(State(), numExperts, weights) && Known(es, numExperts)
      modifies this, cache, pool
      ensures Lockstep(State(), numExperts, weights)
      ensures |vs| == |es| && PhaseChoices(old(State()), es, token, weights, vs, |es|)
      ensures Phase(State(), misses) == PhaseTo(old(State()), es, token, weights, vs, |es|)
    {
      hide Lockstep, SlotChoice, EnsureResident, PhaseTo, PhaseChoices;
      ghost var g := State();
      misses, vs := 0, [];
      PhaseNone(g, es, token, weights);
      for k := 0 to |es|
        invariant Lockstep(State(), numExperts, weights)
        invariant |vs| == k && PhaseChoices(g, es, token, weights, vs, k)
        invariant Phase(State(), misses) == PhaseTo(g, es, token, weights, vs, k)
      {
        ghost var v;
        var hit;
        hit, v := Ensure(es[k], token);
        PhaseMore(g, es, token, weights, vs, v);
        vs := vs + [v];
        if !hit { misses := misses + 1; }
      }
    }

    /** One token: predict, load what is missing, serve; misses exactly when the prediction is too wide. */
    method ServeToken(predicted: seq<int>, t: int) returns (misses: nat, ghost token: Token)
      requires Lockstep(State(), numExperts, weights)
      requires |predicted| == cache.topK && Distinct(predicted) && Known(predicted, numExperts)
      modifies this, cache, pool
      ensures Lockstep(State(), numExperts, weights)
      ensures TokenOk(old(State()), numExperts, token, weights) && token.predicted == predicted && token.at == t
      ensures Phase(State(), misses) == Served(old(State()), token, weights)
      ensures misses == 0 <==> cache.topK <= cache.capacity
    {
      hide Lockstep, PhaseTo, PhaseChoices, Known, Distinct, Ranks;
      ghost var g := State();
      cache.SetLookaheadRanked(predicted);
      PredictedLockstep(g, numExperts, Token(predicted, t, [], []), weights);
      MissingKnown(cache.vram, predicted, numExperts);
      var missing := Missing(cache.vram, predicted);
      ghost var spec, serve;
      var loads;
      loads, spec := EnsureAll(missing, t);
      misses, serve := EnsureAll(predicted, t + 1);
      token := Token(predicted, t, spec, serve);
      TokenMisses(g, numExperts, token, weights);
    }
  }

  lemma VictimResident(c: Experts, v: int)
    requires IsVictim(c, v)
    ensures v in c.vram
  {
  }
}
