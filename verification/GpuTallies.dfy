/**
 What ensure_resident does field by field, and what the log says of the loads, misses and
 evictions of whole runs (modal_step4_triton_kernel.py).
 */
module GpuTallies {
  import opened Maps
  import opened LookAheadSpec
  import opened WindowGuarantee
  import opened LogConservation
  import opened LogTallies
  import opened GpuSlotsSpec
  import opened GpuMisses

  // ---- one call ----------------------------------------------------------

  /** The slot a missing expert gets: the first free one, or the victim's. */
  function SlotFor<W>(g: Gpu<W>, v: int): int {
    if g.free != [] then g.free[0] else if v in g.slotOf then g.slotOf[v] else -1
  }

  /** Only the slot of `e` is written, and only `e` and the victim change their table entries. */
  ghost predicate Placed<W(!new)>(g: Gpu<W>, h: Gpu<W>, e: int, v: int, w: W) {
    var slot := SlotFor(g, v);
    && 0 <= slot < |g.pool| && |h.pool| == |g.pool|
    && h.slotOf.Keys == g.slotOf.Keys && e in h.slotOf && h.slotOf[e] == slot
    && (forall x :: x in g.slotOf && x != e && (g.free != [] || x != v) ==> h.slotOf[x] == g.slotOf[x])
    && (g.free == [] ==> v in h.slotOf && h.slotOf[v] == -1)
    && h.free == (if g.free != [] then g.free[1..] else [])
    && h.pool[slot] == w && (forall i :: 0 <= i < |g.pool| && i != slot ==> h.pool[i] == g.pool[i])
  }

  /**
   A miss with room in the pool takes the first free slot, or evicts and takes the victim's; it
   writes the expert's weights there, logs under the token it was given, and counts one load.
   */
  lemma MissDoes<W(!new)>(g: Gpu<W>, n: nat, e: int, token: int, weights: int -> W, v: int)
    requires Lockstep(g, n, weights) && 0 <= e < n && SlotChoice(g, e, v)
    requires e !in g.cache.vram && g.cache.capacity != 0
    ensures var (h, hit) := EnsureResident(g, e, token, weights, v);
            && !hit && Placed(g, h, e, v, weights(e))
            && h.cache.ops == g.cache.ops + (if g.free == [] then [Evicted(v, token)] else []) + [Prefetched(e, token)]
            && UsedNow(g.cache, h.cache, e, token) && LoadedOnce(g.cache, h.cache, e)
            && PrefetchedOnce(g.cache, h.cache, e) && h.cache.clock == g.cache.clock + 1
  {
    LockstepFacts(g, n, weights);
    if g.free == [] {
      VictimThere(g, e, v);
      FreeSlotLockstep(g, n, weights, v, token);
      EvictThenFill(g, n, e, token, weights, v);
    } else {
      hide Lockstep;
      FillDoes(g, n, e, token, weights, v);
    }
  }

  lemma VictimThere<W(!new)>(g: Gpu<W>, e: int, v: int)
    requires SlotChoice(g, e, v) && e !in g.cache.vram && g.free == [] && g.cache.vram != {}
    ensures v in g.cache.vram
  {
  }

  lemma FillPlaced<W(!new)>(g: Gpu<W>, e: int, token: int, weights: int -> W, v: int)
    requires e in g.slotOf && g.free != [] && g.free[0] < |g.pool|
    ensures Placed(g, FillSlot(g, e, token, weights, v), e, v, weights(e))
  {
    hide Prefetch;
  }

  /** Filling a free slot. */
  lemma FillDoes<W(!new)>(g: Gpu<W>, n: nat, e: int, token: int, weights: int -> W, v: int)
    requires Lockstep(g, n, weights) && 0 <= e < n && e !in g.cache.vram && g.free != []
    ensures g.free[0] < |g.pool| && !Full(Tick(g.cache))
    ensures var h := FillSlot(g, e, token, weights, v);
            && Placed(g, h, e, v, weights(e)) && h.cache.ops == g.cache.ops + [Prefetched(e, token)]
            && UsedNow(g.cache, h.cache, e, token) && LoadedOnce(g.cache, h.cache, e)
            && PrefetchedOnce(g.cache, h.cache, e) && h.cache.clock == g.cache.clock + 1
  {
    FillSlotLockstep(g, n, weights, e, token, v);
    InTable(g, n, e, weights);
    hide Lockstep, Full, Prefetch, Placed;
    FillPlaced(g, e, token, weights, v);
    NotFullNow(g.cache);
    assert RoomChoice(g.cache, v);
    PrefetchDoes(g.cache, e, token, v);
    assert g.cache.ops + [] == g.cache.ops;
  }

  lemma NotFullNow(c: Experts)
    ensures Full(Tick(c)) == Full(c)
  {
  }

  lemma InTable<W(!new)>(g: Gpu<W>, n: nat, e: int, weights: int -> W)
    requires Lockstep(g, n, weights) && 0 <= e < n
    ensures e in g.slotOf
  {
  }

  /** Evicting first: the freed slot is the only free one, and is filled at once. */
  lemma EvictThenFill<W(!new)>(g: Gpu<W>, n: nat, e: int, token: int, weights: int -> W, v: int)
    requires Lockstep(g, n, weights) && 0 <= e < n && e !in g.cache.vram && g.free == [] && v in g.cache.vram
    requires v in g.slotOf && g.slotOf[v] >= 0 && Lockstep(FreeSlot(g, v, token), n, weights)
    ensures var f := FreeSlot(g, v, token); var h := FillSlot(f, e, token, weights, v);
            && f.free == [g.slotOf[v]] && g.slotOf[v] < |g.pool| && Placed(g, h, e, v, weights(e))
            && h.cache.ops == g.cache.ops + [Evicted(v, token)] + [Prefetched(e, token)]
            && UsedNow(g.cache, h.cache, e, token) && LoadedOnce(g.cache, h.cache, e)
            && PrefetchedOnce(g.cache, h.cache, e) && h.cache.clock == g.cache.clock + 1
  {
    hide Lockstep, Prefetch, Full;
    var f := FreeSlot(g, v, token);
    FillDoes(f, n, e, token, weights, v);
    assert f.cache == Evict(g.cache, v, token);
  }

  // ---- the log of a phase --------------------------------------------------------

  /** `b` extends the log `a`, and all it adds bears the token. */
  ghost predicate Logged(a: seq<LogOp>, b: seq<LogOp>, token: int) {
    a <= b && forall i :: |a| <= i < |b| ==> b[i].token == token
  }

  /** The loads the log shows. */
  function Loads(ops: seq<LogOp>): nat {
    if ops == [] then 0 else Loads(ops[..|ops| - 1]) + if ops[|ops| - 1].Prefetched? then 1 else 0
  }

  lemma LoadsSnoc(ops: seq<LogOp>, op: LogOp)
    ensures Loads(ops + [op]) == Loads(ops) + if op.Prefetched? then 1 else 0
  {
    assert (ops + [op])[..|ops|] == ops;
  }

  /** The counter of evictions agrees with the log. */
  ghost predicate EvictionsAgree<W>(g: Gpu<W>) { g.evictions == Evictions(g.cache.ops) }

  lemma MissLogged(a: seq<LogOp>, full: bool, e: int, v: int, token: int)
    ensures var b := a + (if full then [Evicted(v, token)] else []) + [Prefetched(e, token)];
            && Logged(a, b, token) && Loads(b) == Loads(a) + 1
            && Evictions(b) == Evictions(a) + if full then 1 else 0
  {
    hide Loads, Evictions;
    var m := a + (if full then [Evicted(v, token)] else []);
    if full {
      LogSnoc(a, Evicted(v, token));
      LoadsSnoc(a, Evicted(v, token));
    } else {
      assert m == a;
    }
    LogSnoc(m, Prefetched(e, token));
    LoadsSnoc(m, Prefetched(e, token));
  }

  lemma EnsureLogged<W(!new)>(g: Gpu<W>, n: nat, e: int, token: int, weights: int -> W, v: int)
    requires Lockstep(g, n, weights) && 0 <= e < n && SlotChoice(g, e, v) && EvictionsAgree(g)
    ensures var (h, hit) := EnsureResident(g, e, token, weights, v);
            && Logged(g.cache.ops, h.cache.ops, token) && EvictionsAgree(h)
            && Loads(h.cache.ops) == Loads(g.cache.ops) + (if hit || g.cache.capacity == 0 then 0 else 1)
  {
    hide Loads, Evictions, SlotChoice;
    EnsureLockstep(g, n, e, token, weights, v);
    if e !in g.cache.vram {
      if g.cache.capacity == 0 {
        EmptyPool(g, n, e, token, weights, v);
      } else {
        hide Lockstep, EnsureResident, Logged, Placed;
        MissDoes(g, n, e, token, weights, v);
        MissLogged(g.cache.ops, g.free == [], e, v, token);
      }
    }
  }

  lemma EmptyPool<W(!new)>(g: Gpu<W>, n: nat, e: int, token: int, weights: int -> W, v: int)
    requires Lockstep(g, n, weights) && g.cache.capacity == 0
    ensures EnsureResident(g, e, token, weights, v).0 == g
  {
    LockstepFacts(g, n, weights);
  }

  /** A phase logs its loads under its token, one for each miss; without a pool it loads nothing. */
  lemma {:induction false} PhaseLogged<W(!new)>(g: Gpu<W>, n: nat, es: seq<int>, token: int, weights: int -> W,
                                                vs: seq<int>, k: nat)
    requires k <= |es| && k <= |vs| && Known(es, n) && PhaseChoices(g, es, token, weights, vs, k)
    requires Lockstep(g, n, weights) && EvictionsAgree(g)
    ensures var r := PhaseTo(g, es, token, weights, vs, k);
            && Logged(g.cache.ops, r.gpu.cache.ops, token) && EvictionsAgree(r.gpu)
            && Loads(r.gpu.cache.ops) == Loads(g.cache.ops) + (if g.cache.capacity == 0 then 0 else r.misses)
  {
    hide Lockstep, SlotChoice, EnsureResident, Loads, EvictionsAgree;
    if k > 0 {
      PhaseLogged(g, n, es, token, weights, vs, k - 1);
      PhaseLockstep(g, n, es, token, weights, vs, k - 1);
      PhaseSuc(g, n, es, token, weights, vs, k);
      EnsureLogged(PhaseTo(g, es, token, weights, vs, k - 1).gpu, n, es[k - 1], token, weights, vs[k - 1]);
    }
  }

  /** Going through distinct absent experts, every one is a miss. */
  lemma {:induction false} AllMiss<W(!new)>(g: Gpu<W>, n: nat, es: seq<int>, token: int, weights: int -> W,
                                            vs: seq<int>, k: nat)
    requires k <= |es| && k <= |vs| && Known(es, n) && PhaseChoices(g, es, token, weights, vs, k)
    requires Lockstep(g, n, weights) && Distinct(es) && forall i :: 0 <= i < |es| ==> es[i] !in g.cache.vram
    ensures PhaseTo(g, es, token, weights, vs, k).misses == k
  {
    hide Lockstep, SlotChoice, EnsureResident, PhaseTo;
    if k == 0 {
      PhaseZero(g, es, token, weights, vs);
    } else {
      PhaseChoicesPrefix(g, es, token, weights, vs, k);
      AllMiss(g, n, es, token, weights, vs, k - 1);
      PhaseLockstep(g, n, es, token, weights, vs, k - 1);
      PhaseGrows(g, n, es, token, weights, vs, k - 1, k - 1);
      PhaseSuc(g, n, es, token, weights, vs, k);
      assert es[k - 1] !in es[..k - 1];
    }
  }

  // ---- one token, and whole runs ---------------------------------------------------

  /**
   One token logs the speculative loads under its own number, one for each missing
   prediction, and then the misses of serving under the next number.
   */
  lemma TokenLogged<W(!new)>(g: Gpu<W>, n: nat, t: Token, weights: int -> W)
    requires Lockstep(g, n, weights) && TokenOk(g, n, t, weights) && EvictionsAgree(g)
    ensures var s := Speculated(g, t, weights); var r := Served(g, t, weights);
            && Logged(g.cache.ops, s.cache.ops, t.at) && Logged(s.cache.ops, r.gpu.cache.ops, t.at + 1)
            && EvictionsAgree(r.gpu)
            && (g.cache.capacity != 0 ==>
                && Loads(s.cache.ops) == Loads(g.cache.ops) + |Missing(g.cache.vram, t.predicted)|
                && Loads(r.gpu.cache.ops) == Loads(s.cache.ops) + r.misses)
            && (g.cache.capacity == 0 ==> r.misses == |t.predicted|)
  {
    hide Lockstep, PhaseChoices, PhaseTo, Known, Loads, Ranks, Evictions;
    var missing := Missing(g.cache.vram, t.predicted);
    PredictedLockstep(g, n, t, weights);
    SpeculatedLockstep(g, n, t, weights);
    MissingKnown(g.cache.vram, t.predicted, n);
    MissingOf(g.cache.vram, t.predicted);
    assert forall i :: 0 <= i < |missing| ==> missing[i] in missing;
    PhaseLogged(Predicted(g, t), n, missing, t.at, weights, t.spec, |missing|);
    AllMiss(Predicted(g, t), n, missing, t.at, weights, t.spec, |missing|);
    var s := Speculated(g, t, weights);
    PhaseLogged(s, n, t.predicted, t.at + 1, weights, t.serve, |t.predicted|);
    if g.cache.capacity == 0 {
      LockstepFacts(s, n, weights);
      AllMiss(s, n, t.predicted, t.at + 1, weights, t.serve, |t.predicted|);
    }
  }

  /** The predictions missing at the start of the first `i` tokens: the speculative loads. */
  function Speculations<W>(rs: seq<Phase<W>>, ts: seq<Token>, i: nat): nat
    requires i <= |ts| && i <= |rs|
  {
    if i == 0 then 0
    else Speculations(rs, ts, i - 1) + |Missing(rs[i - 1].gpu.cache.vram, ts[i - 1].predicted)|
  }

  /**
   In every run with a pool: every load in the log is a speculative one or a miss, so the total
   of misses is the loads the log shows beyond the missing predictions; and the total of
   evictions is the number of evictions in the log.
   */
  lemma {:induction false} RunLoads<W(!new)>(rs: seq<Phase<W>>, ts: seq<Token>, capacity: nat, topK: int, n: nat,
                                             blank: W, weights: int -> W, i: nat)
    requires TokenRun(rs, ts, n, weights) && i < |rs| && rs[0] == Phase(Start(capacity, topK, n, blank), 0)
    ensures EvictionsAgree(rs[i].gpu)
    ensures capacity != 0 ==> Loads(rs[i].gpu.cache.ops) == Speculations(rs, ts, i) + rs[i].misses
  {
    hide Lockstep, TokenOk, Served, Loads, Missing, EvictionsAgree;
    if i == 0 {
      StartLogged(capacity, topK, n, blank);
    } else {
      RunLoads(rs, ts, capacity, topK, n, blank, weights, i - 1);
      RunMisses(rs, ts, capacity, topK, n, blank, weights, i - 1);
      TokenLogged(rs[i - 1].gpu, n, ts[i - 1], weights);
    }
  }

  lemma StartLogged<W>(capacity: nat, topK: int, n: nat, blank: W)
    ensures EvictionsAgree(Start(capacity, topK, n, blank))
    ensures Loads(Start(capacity, topK, n, blank).cache.ops) == 0
  {
  }
}
