/** When the token loop of run_triton_prefetch (modal_step4_triton_kernel.py) has cache misses. */
module GpuMisses {
  import opened Maps
  import opened LookAheadSpec
  import opened WindowGuarantee
  import opened GpuSlotsSpec

  // ---- the speculative phase ---------------------------------------------------

  lemma VictimUnpredicted<W(!new)>(g: Gpu<W>, n: nat, weights: int -> W, p: seq<int>, e: int, v: int)
    requires Lockstep(g, n, weights) && Ranked(g.cache, p) && |p| <= g.cache.capacity
    requires e in p && e !in g.cache.vram && g.free == [] && SlotChoice(g, e, v)
    ensures v !in p
  {
    LockstepFacts(g, n, weights);
    hide Lockstep, IsVictim, Ranks;
    var u := UnpredictedResident(g.cache, p, e);
    UnpredictedFirst(g.cache, p, v, u);
  }

  lemma RankedSame(c: Experts, d: Experts, p: seq<int>)
    requires Ranked(c, p) && SameSetup(c, d)
    ensures Ranked(d, p)
  {
    hide Distinct, Ranks;
  }

  /** Loading missing predictions loses none. */
  lemma {:induction false} PhaseLoads<W(!new)>(g: Gpu<W>, n: nat, es: seq<int>, token: int, weights: int -> W,
                                               vs: seq<int>, k: nat, p: seq<int>, x: int)
    requires k <= |es| && k <= |vs| && Known(es, n) && PhaseChoices(g, es, token, weights, vs, k)
    requires Lockstep(g, n, weights) && Ranked(g.cache, p) && |p| <= g.cache.capacity
    requires forall i :: 0 <= i < |es| ==> es[i] in p
    requires x in p && (x in g.cache.vram || x in es[..k])
    ensures x in PhaseTo(g, es, token, weights, vs, k).gpu.cache.vram
  {
    hide Lockstep, PhaseTo, PhaseChoices, SlotChoice, Ranked, Known;
    if k == 0 {
      PhaseZero(g, es, token, weights, vs);
    } else {
      var b := PhaseTo(g, es, token, weights, vs, k - 1).gpu;
      var e := es[k - 1];
      PhaseChoicesPrefix(g, es, token, weights, vs, k);
      PhaseLockstep(g, n, es, token, weights, vs, k - 1);
      PhaseSuc(g, n, es, token, weights, vs, k);
      RankedSame(g.cache, b.cache, p);
      assert es[..k] == es[..k - 1] + [e];
      if x != e { PhaseLoads(g, n, es, token, weights, vs, k - 1, p, x); }
      assert e in p && |p| > 0;
      if e !in b.cache.vram && b.free == [] { VictimUnpredicted(b, n, weights, p, e, vs[k - 1]); }
    }
  }

  lemma PhaseZero<W>(g: Gpu<W>, es: seq<int>, token: int, weights: int -> W, vs: seq<int>)
    ensures PhaseTo(g, es, token, weights, vs, 0) == Phase(g, 0)
  {
  }

  lemma PhaseChoicesPrefix<W>(g: Gpu<W>, es: seq<int>, token: int, weights: int -> W, vs: seq<int>, k: nat)
    requires 0 < k <= |es| && k <= |vs| && PhaseChoices(g, es, token, weights, vs, k)
    ensures PhaseChoices(g, es, token, weights, vs, k - 1)
  {
    hide SlotChoice, PhaseTo;
  }

  // ---- the serving phase -------------------------------------------------------

  /** Serving experts that are all resident misses nothing and changes nothing. */
  lemma {:induction false} PhaseAllHits<W(!new)>(g: Gpu<W>, n: nat, es: seq<int>, token: int, weights: int -> W,
                                                 vs: seq<int>, k: nat)
    requires k <= |es| && k <= |vs| && Known(es, n) && PhaseChoices(g, es, token, weights, vs, k)
    requires Lockstep(g, n, weights) && forall i :: 0 <= i < |es| ==> es[i] in g.cache.vram
    ensures PhaseTo(g, es, token, weights, vs, k) == Phase(g, 0)
  {
    hide Lockstep, PhaseChoices, EnsureResident, Known;
    if k > 0 {
      PhaseChoicesPrefix(g, es, token, weights, vs, k);
      PhaseAllHits(g, n, es, token, weights, vs, k - 1);
      PhaseSuc(g, n, es, token, weights, vs, k);
    }
  }

  /** Only served experts enter, and misses never shrink. */
  lemma {:induction false} PhaseGrows<W(!new)>(g: Gpu<W>, n: nat, es: seq<int>, token: int, weights: int -> W,
                                               vs: seq<int>, k: nat, m: nat)
    requires m <= k <= |es| && k <= |vs| && Known(es, n) && PhaseChoices(g, es, token, weights, vs, k)
    requires Lockstep(g, n, weights)
    ensures forall x :: x in PhaseTo(g, es, token, weights, vs, k).gpu.cache.vram ==> x in g.cache.vram || x in es[..k]
    ensures PhaseTo(g, es, token, weights, vs, m).misses <= PhaseTo(g, es, token, weights, vs, k).misses
  {
    hide Lockstep, PhaseChoices, PhaseTo, SlotChoice, Known;
    if k == 0 {
      PhaseZero(g, es, token, weights, vs);
    } else {
      PhaseChoicesPrefix(g, es, token, weights, vs, k);
      PhaseGrows(g, n, es, token, weights, vs, k - 1, if m < k then m else k - 1);
      PhaseLockstep(g, n, es, token, weights, vs, k - 1);
      PhaseSuc(g, n, es, token, weights, vs, k);
      assert es[..k] == es[..k - 1] + [es[k - 1]];
    }
  }

  /** Serving a distinct expert that is not resident at the start is a miss. */
  lemma PhaseMisses<W(!new)>(g: Gpu<W>, n: nat, es: seq<int>, token: int, weights: int -> W, vs: seq<int>, i: nat)
    requires |vs| == |es| && Known(es, n) && PhaseChoices(g, es, token, weights, vs, |es|)
    requires Lockstep(g, n, weights) && Distinct(es) && i < |es| && es[i] !in g.cache.vram
    ensures PhaseTo(g, es, token, weights, vs, |es|).misses >= 1
  {
    hide Lockstep, PhaseTo, SlotChoice;
    assert PhaseChoices(g, es, token, weights, vs, i);
    assert PhaseChoices(g, es, token, weights, vs, i + 1);
    hide PhaseChoices;
    PhaseGrows(g, n, es, token, weights, vs, i, 0);
    PhaseLockstep(g, n, es, token, weights, vs, i);
    assert es[i] !in es[..i];
    PhaseSuc(g, n, es, token, weights, vs, i + 1);
    PhaseGrows(g, n, es, token, weights, vs, |es|, i + 1);
  }

  // ---- one token -------------------------------------------------------------

  /** A prediction, its token, and the victims of the two phases. */
  datatype Token = Token(predicted: seq<int>, at: int, spec: seq<int>, serve: seq<int>)

  function Predicted<W>(g: Gpu<W>, t: Token): Gpu<W> { g.(cache := SetLookahead(g.cache, t.predicted)) }

  function Speculated<W>(g: Gpu<W>, t: Token, weights: int -> W): Gpu<W>
    requires |t.spec| == |Missing(g.cache.vram, t.predicted)|
  {
    PhaseTo(Predicted(g, t), Missing(g.cache.vram, t.predicted), t.at, weights, t.spec, |t.spec|).gpu
  }

  function Served<W>(g: Gpu<W>, t: Token, weights: int -> W): Phase<W>
    requires |t.spec| == |Missing(g.cache.vram, t.predicted)| && |t.serve| == |t.predicted|
  {
    PhaseTo(Speculated(g, t, weights), t.predicted, t.at + 1, weights, t.serve, |t.serve|)
  }

  /** The prediction is as long as configured, distinct and in range, and the victims are possible. */
  ghost predicate TokenOk<W>(g: Gpu<W>, n: nat, t: Token, weights: int -> W) {
    && |t.predicted| == g.cache.topK && Distinct(t.predicted) && Known(t.predicted, n)
    && |t.spec| == |Missing(g.cache.vram, t.predicted)| && |t.serve| == |t.predicted|
    && PhaseChoices(Predicted(g, t), Missing(g.cache.vram, t.predicted), t.at, weights, t.spec, |t.spec|)
    && PhaseChoices(Speculated(g, t, weights), t.predicted, t.at + 1, weights, t.serve, |t.serve|)
  }

  lemma MissingKnown(vram: set<int>, p: seq<int>, n: nat)
    requires Known(p, n)
    ensures Known(Missing(vram, p), n)
    ensures forall i :: 0 <= i < |Missing(vram, p)| ==> Missing(vram, p)[i] in p
  {
    hide Missing;
    MissingOf(vram, p);
    var m := Missing(vram, p);
    forall i | 0 <= i < |m| ensures 0 <= m[i] < n && m[i] in p { assert m[i] in m; }
  }

  lemma PredictedLockstep<W(!new)>(g: Gpu<W>, n: nat, t: Token, weights: int -> W)
    requires Lockstep(g, n, weights)
    ensures Lockstep(Predicted(g, t), n, weights)
  {
    hide SlotTables.Table;
  }

  lemma SpeculatedLockstep<W(!new)>(g: Gpu<W>, n: nat, t: Token, weights: int -> W)
    requires Lockstep(g, n, weights) && TokenOk(g, n, t, weights)
    ensures Lockstep(Speculated(g, t, weights), n, weights)
    ensures Speculated(g, t, weights).cache.capacity == g.cache.capacity
    ensures Speculated(g, t, weights).cache.topK == g.cache.topK
  {
    hide Lockstep, PhaseChoices, PhaseTo, Known;
    PredictedLockstep(g, n, t, weights);
    MissingKnown(g.cache.vram, t.predicted, n);
    PhaseLockstep(Predicted(g, t), n, Missing(g.cache.vram, t.predicted), t.at, weights, t.spec, |t.spec|);
  }

  /** Speculation makes every prediction resident when they all fit. */
  lemma SpeculatedResident<W(!new)>(g: Gpu<W>, n: nat, t: Token, weights: int -> W)
    requires Lockstep(g, n, weights) && TokenOk(g, n, t, weights) && g.cache.topK <= g.cache.capacity
    ensures forall i :: 0 <= i < |t.predicted| ==> t.predicted[i] in Speculated(g, t, weights).cache.vram
  {
    hide Lockstep, PhaseChoices, PhaseTo, Known, Ranks;
    var p, missing := t.predicted, Missing(g.cache.vram, t.predicted);
    PredictedLockstep(g, n, t, weights);
    MissingKnown(g.cache.vram, p, n);
    MissingOf(g.cache.vram, p);
    assert missing[..|missing|] == missing;
    forall i | 0 <= i < |p| ensures p[i] in Speculated(g, t, weights).cache.vram {
      assert p[i] in p;
      PhaseLoads(Predicted(g, t), n, missing, t.at, weights, t.spec, |missing|, p, p[i]);
    }
  }

  /** Serving one token misses nothing if the predictions fit, and misses something if they do not. */
  lemma TokenMisses<W(!new)>(g: Gpu<W>, n: nat, t: Token, weights: int -> W)
    requires Lockstep(g, n, weights) && TokenOk(g, n, t, weights)
    ensures Served(g, t, weights).misses == 0 <==> g.cache.topK <= g.cache.capacity
  {
    hide Lockstep, PhaseChoices, PhaseTo, Speculated, Known, Distinct, Missing;
    var s := Speculated(g, t, weights);
    SpeculatedLockstep(g, n, t, weights);
    if g.cache.topK <= g.cache.capacity {
      SpeculatedResident(g, n, t, weights);
      PhaseAllHits(s, n, t.predicted, t.at + 1, weights, t.serve, |t.serve|);
    } else {
      LockstepFacts(s, n, weights);
      var i := SomeAbsent(s.cache.vram, t.predicted);
      PhaseMisses(s, n, t.predicted, t.at + 1, weights, t.serve, i);
    }
  }

  lemma SomeAbsent(vram: set<int>, p: seq<int>) returns (i: nat)
    requires Distinct(p) && |vram| < |p|
    ensures i < |p| && p[i] !in vram
  {
    SetSize(p);
    if Set(p) <= vram {
      SubsetSize(Set(p), vram);
      assert false;
    }
    var u := Outside(Set(p), vram);
    i :| 0 <= i < |p| && p[i] == u;
  }

  lemma ServedLockstep<W(!new)>(g: Gpu<W>, n: nat, t: Token, weights: int -> W)
    requires Lockstep(g, n, weights) && TokenOk(g, n, t, weights)
    ensures Lockstep(Served(g, t, weights).gpu, n, weights)
    ensures Served(g, t, weights).gpu.cache.capacity == g.cache.capacity
    ensures Served(g, t, weights).gpu.cache.topK == g.cache.topK
  {
    hide Lockstep, PhaseChoices, PhaseTo, Speculated, Known;
    SpeculatedLockstep(g, n, t, weights);
    PhaseLockstep(Speculated(g, t, weights), n, t.predicted, t.at + 1, weights, t.serve, |t.serve|);
  }

  // ---- whole runs ----------------------------------------------------------

  ghost predicate TokenRun<W>(rs: seq<Phase<W>>, ts: seq<Token>, n: nat, weights: int -> W) {
    && |rs| == |ts| + 1
    && forall i :: 0 <= i < |ts| ==>
         && TokenOk(rs[i].gpu, n, ts[i], weights)
         && rs[i + 1] == Phase(Served(rs[i].gpu, ts[i], weights).gpu,
                               rs[i].misses + Served(rs[i].gpu, ts[i], weights).misses)
  }

  /**
   In every run the slot table stays in lockstep with the cache, and total_cache_misses is
   zero if and only if the prediction width is within the capacity (or nothing was served).
   */
  lemma {:induction false} RunMisses<W(!new)>(rs: seq<Phase<W>>, ts: seq<Token>, capacity: nat, topK: int, n: nat,
                                              blank: W, weights: int -> W, i: nat)
    requires TokenRun(rs, ts, n, weights) && i < |rs| && rs[0] == Phase(Start(capacity, topK, n, blank), 0)
    ensures Lockstep(rs[i].gpu, n, weights)
    ensures rs[i].gpu.cache.capacity == capacity && rs[i].gpu.cache.topK == topK
    ensures rs[i].misses == 0 <==> topK <= capacity || i == 0
  {
    hide Lockstep, TokenOk, Served;
    if i == 0 {
      StartLockstep(capacity, topK, n, blank, weights);
    } else {
      RunMisses(rs, ts, capacity, topK, n, blank, weights, i - 1);
      ServedLockstep(rs[i - 1].gpu, n, ts[i - 1], weights);
      TokenMisses(rs[i - 1].gpu, n, ts[i - 1], weights);
    }
  }
}
