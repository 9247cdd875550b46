/**
 The engine never resets a pending copy away: whoever is staged last in a layer is also
 waited for, so between calls the queue is always drained (dee.cpp/src/engine.cpp).
 */
module EngineResets {
  import opened Memory
  import opened CacheSpec
  import opened PrefetchSpec
  import opened StaleWeights
  import opened LazyEager
  import opened EngineSpec

  ghost predicate Drained(s: Prefetcher) {
    forall i :: 0 <= i < |s.queue| ==> !s.queue[i].Ready()
  }

  /** The latest copy of `k` is the last of the queue. */
  ghost predicate LastFor(s: Prefetcher, k: Key) {
    s.queue != [] && Pack(k) in s.index && s.index[Pack(k)] == |s.queue| - 1
  }

  lemma PrefetchLast(s: Prefetcher, op: Op)
    requires op.PrefetchOp?
    ensures (Step(s, op).queue == s.queue && Step(s, op).index == s.index) || LastFor(Step(s, op), op.key)
  {
    hide Ensure, Pack;
  }

  /** After staging, the last copy queued is that of a prediction, or nothing was queued. */
  lemma {:induction false} StagedLast(m: Model, s: Prefetcher, layer: Int32, es: seq<Int32>,
                                      vss: seq<seq<Key>>, n: nat) returns (r: nat)
    requires n <= |es| <= m.topk && |vss| >= n
    ensures var t := StageTo(m, s, layer, es, vss, n);
            t.queue == s.queue || (r < n && LastFor(t, Key(layer, es[r])))
  {
    hide Step, LastFor;
    r := 0;
    if n > 0 {
      r := StagedLast(m, s, layer, es, vss, n - 1);
      var t := StageTo(m, s, layer, es, vss, n - 1);
      if m.blob(es[n - 1]).Some? {
        PrefetchLast(t, StageOp(m, layer, es, n - 1, vss[n - 1]));
        var u := StageTo(m, s, layer, es, vss, n);
        if u.queue != t.queue || u.index != t.index { r := n - 1; }
        else if r < n - 1 { SameLast(t, u, Key(layer, es[r])); }
      }
    }
  }

  lemma SameLast(t: Prefetcher, u: Prefetcher, k: Key)
    requires u.queue == t.queue && u.index == t.index
    ensures LastFor(u, k) == LastFor(t, k)
  {
  }

  /** Computing never makes a copy pending again, and drains up to what it waits for. */
  lemma ComputeOneDrains<A>(l: Layer<A>, k: Key, swiglu: (A, seq<Byte>) -> A)
    ensures var q := ComputeOne(l, k, swiglu).state.queue;
            && |q| == |l.state.queue| && ComputeOne(l, k, swiglu).state.index == l.state.index
            && (Drained(l.state) || LastFor(l.state, k) ==> Drained(ComputeOne(l, k, swiglu).state))
  {
    hide DrainMem, Pack;
  }

  lemma {:induction false} ComputeToDrains<A>(l: Layer<A>, layer: Int32, es: seq<Int32>,
                                              swiglu: (A, seq<Byte>) -> A, n: nat, r: nat)
    requires n <= |es| && (Drained(l.state) || (r < |es| && LastFor(l.state, Key(layer, es[r]))))
    ensures var t := ComputeTo(l, layer, es, swiglu, n).state;
            && |t.queue| == |l.state.queue| && t.index == l.state.index
            && (Drained(l.state) || r < n ==> Drained(t))
  {
    hide ComputeOne, Drained;
    if n > 0 {
      ComputeToDrains(l, layer, es, swiglu, n - 1, r);
      ComputeOneDrains(ComputeTo(l, layer, es, swiglu, n - 1), Key(layer, es[n - 1]), swiglu);
    }
  }

  lemma DrainedSame(s: Prefetcher, t: Prefetcher)
    requires Drained(s) && t.queue == s.queue
    ensures Drained(t)
  {
  }

  lemma EngineStepDrains<A>(m: Model, l: Layer<A>, call: Call<A>)
    requires Drained(l.state) && CallPossible(m, l, call)
    ensures Drained(EngineStep(m, l, call).state)
  {
    if call.LayerCall? {
      hide Drained, LastFor, ComputeTo, StageTo, StageChoices;
      var n := |call.experts|;
      var r := StagedLast(m, l.state, call.layer, call.experts, call.victims, n);
      var staged := Staged(m, l, call);
      if staged.queue == l.state.queue { DrainedSame(l.state, staged); }
      ComputeToDrains(Layer(staged, call.zero, l.fallbacks), call.layer, call.experts, call.swiglu, n, r);
    }
  }

  /** In every run, between layer calls, no copy is pending. */
  lemma {:induction false} EngineRunDrains<A>(m: Model, ls: seq<Layer<A>>, calls: seq<Call<A>>, i: nat)
    requires EngineRun(m, ls, calls) && i < |ls| && Fresh(ls[0].state)
    ensures Drained(ls[i].state)
  {
    if i > 0 {
      hide Drained, CallPossible, EngineStep;
      EngineRunDrains(m, ls, calls, i - 1);
      EngineStepDrains(m, ls[i - 1], calls[i - 1]);
    }
  }

  /** So the engine may reset between any two calls and stay equal to an eager one. */
  lemma EngineResetsLossless<A>(m: Model, ls: seq<Layer<A>>, calls: seq<Call<A>>, i: nat)
    requires EngineRun(m, ls, calls) && i < |ls| && Fresh(ls[0].state)
    ensures ResetLossless(ls[i].state) && Flushed(ls[i].state) == ls[i].state.mem
  {
    hide ResetLossless, EngineRun;
    EngineRunDrains(m, ls, calls, i);
    ResetRefinesIff(ls[i].state);
    DrainIdle(ls[i].state.queue, ls[i].state.mem, 0, |ls[i].state.queue|);
  }
}
