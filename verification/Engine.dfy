/** forward_layer of dee.cpp/src/engine.cpp, driving the prefetcher and the cache in place. */
module Engines {
  import opened Memory
  import opened CacheSpec
  import opened PrefetchSpec
  import opened AsyncPrefetchers
  import opened StaleWeights
  import opened EngineSpec
  import TopK

  /** One more staged expert extends the recorded choices. */
  lemma StageMore(m: Model, s: Prefetcher, layer: Int32, es: seq<Int32>, vss: seq<seq<Key>>, vs: seq<Key>)
    requires |vss| < |es| <= m.topk && StageChoices(m, s, layer, es, vss, |vss|)
    requires m.blob(es[|vss|]).Some? ==>
               Choice(StageTo(m, s, layer, es, vss, |vss|).cache, Key(layer, es[|vss|]), m.blobBytes, vs)
    ensures StageChoices(m, s, layer, es, vss + [vs], |vss| + 1)
    ensures StageTo(m, s, layer, es, vss + [vs], |vss| + 1) ==
            StageOne(m, StageTo(m, s, layer, es, vss, |vss|), layer, es, |vss|, vs)
  {
    hide StageOne, Choice;
    var n := |vss|;
    StageToSame(m, s, layer, es, vss + [vs], vss, n);
    forall i | 0 <= i < n + 1 && m.blob(es[i]).Some?
      ensures Choice(StageTo(m, s, layer, es, vss + [vs], i).cache, Key(layer, es[i]), m.blobBytes, (vss + [vs])[i])
    {
      StageToSame(m, s, layer, es, vss + [vs], vss, i);
    }
  }

  lemma BlockReadable(m: Model, s: Prefetcher, k: Key)
    requires EngineInv(m, s) && k in s.cache.blocks
    ensures s.cache.blocks[k].size == m.blobBytes && s.cache.blocks[k].off + m.blobBytes <= |s.mem|
  {
    hide Sound, QInv, EngineSources;
    BlockInside(s.cache, k);
  }

  class Engine {
    const prefetcher: AsyncPrefetcher
    const model: Model
    var fallbacks: nat

    ghost function State(): Prefetcher
      reads this, prefetcher, prefetcher.cache, prefetcher.cache.arena, prefetcher.cache.arena.base
    {
      prefetcher.State()
    }

    constructor (p: AsyncPrefetcher, m: Model)
      ensures prefetcher == p && model == m && fallbacks == 0
    {
      prefetcher, model, fallbacks := p, m, 0;
    }

    /** stage_expert: nothing to do when the expert's tensors are missing. */
    method StageExpert(layer: Int32, expert: Int32, priority: Int32) returns (ghost vs: seq<Key>)
      modifies prefetcher, prefetcher.cache, prefetcher.cache.arena
      ensures model.blob(expert).Some? ==> Choice(old(State()).cache, Key(layer, expert), model.blobBytes, vs)
      ensures State() == if model.blob(expert).None? then old(State())
                         else Step(old(State()), PrefetchOp(Key(layer, expert), model.blob(expert), model.blobBytes,
                                                            priority, vs))
    {
      hide Choice, PrefetchSpec.Prefetch;
      vs := [];
      var blob := model.blob(expert);
      if blob.None? { return; }
      var id;
      id, vs := prefetcher.Prefetch(Key(layer, expert), blob, model.blobBytes, priority);
    }

    /** Issue prefetches for all predicted experts, higher priority for higher rank. */
    method StageAll(layer: Int32, experts: seq<Int32>) returns (ghost vss: seq<seq<Key>>)
      requires |experts| <= model.topk
      modifies prefetcher, prefetcher.cache, prefetcher.cache.arena
      ensures |vss| == |experts| && StageChoices(model, old(State()), layer, experts, vss, |experts|)
      ensures State() == StageTo(model, old(State()), layer, experts, vss, |experts|)
    {
      hide Choice, Step, StageChoices;
      ghost var s := State();
      vss := [];
      NoChoices(model, s, layer, experts);
      for k := 0 to |experts|
        invariant |vss| == k && StageChoices(model, s, layer, experts, vss, k)
        invariant State() == StageTo(model, s, layer, experts, vss, k)
      {
        ghost var vs := StageExpert(layer, experts[k], model.topk - k);
        StageMore(model, s, layer, experts, vss, vs);
        vss := vss + [vs];
      }
    }

    /** Wait for one expert and accumulate its contribution, or count a fallback. */
    method UseExpert<A>(key: Key, acc: A, swiglu: (A, seq<Byte>) -> A) returns (sum: A)
      requires EngineInv(model, State())
      modifies this, prefetcher, prefetcher.cache, prefetcher.cache.arena.base
      ensures Layer(State(), sum, fallbacks) == ComputeOne(Layer(old(State()), acc, old(fallbacks)), key, swiglu)
    {
      hide EngineInv, PInv, Wait, CacheSpec.Touch, QueueOk, IndexOk;
      EngineFacts(model, State());
      PInvParts(State());
      WaitEngineInv(model, State(), key);
      var ready := prefetcher.Wait(key);
      var p := prefetcher.cache.Data(key);
      if p.None? {
        fallbacks := fallbacks + 1;
        return acc;
      }
      BlockReadable(model, State(), key);
      sum := swiglu(acc, prefetcher.cache.arena.base[p.value..p.value + model.blobBytes]);
      prefetcher.cache.Touch(key);
    }

    method ForwardLayer<A>(layer: Int32, experts: seq<Int32>, swiglu: (A, seq<Byte>) -> A, zero: A)
      returns (acc: A, ghost vss: seq<seq<Key>>)
      requires EngineInv(model, State()) && |experts| <= model.topk
      modifies this, prefetcher, prefetcher.cache, prefetcher.cache.arena, prefetcher.cache.arena.base
      ensures |vss| == |experts| && StageChoices(model, old(State()), layer, experts, vss, |experts|)
      ensures Layer(State(), acc, fallbacks) ==
              EngineStep(model, Layer(old(State()), zero, old(fallbacks)),
                         LayerCall(layer, experts, vss, swiglu, zero))
    {
      hide EngineInv, StageTo, StageChoices, ComputeOne, LatestSource;
      ghost var s := State();
      vss := StageAll(layer, experts);
      acc := zero;
      ghost var l := Layer(State(), zero, fallbacks);
      StageToInv(model, s, layer, experts, vss, |experts|);
      StagedAll(model, s, layer, experts, vss);
      for k := 0 to |experts|
        invariant Layer(State(), acc, fallbacks) == ComputeTo(l, layer, experts, swiglu, k)
      {
        ComputeToOutput(model, l, layer, experts, swiglu, k);
        acc := UseExpert(Key(layer, experts[k]), acc, swiglu);
      }
    }

    /** The whole of forward_layer: predict the top experts of the layer, then stage and compute. */
    method PredictAndForward<A>(layer: Int32, logits: seq<real>, swiglu: (A, seq<Byte>) -> A, zero: A)
      returns (acc: A, experts: seq<Int32>, ghost vss: seq<seq<Key>>)
      requires EngineInv(model, State()) && |logits| < 0x8000_0000
      modifies this, prefetcher, prefetcher.cache, prefetcher.cache.arena, prefetcher.cache.arena.base
      ensures TopK.IsTopK(experts, logits, model.topk) && |vss| == |experts|
      ensures experts == [] ==> State() == old(State()) && acc == zero && fallbacks == old(fallbacks)
      ensures experts != [] ==>
                && |experts| <= model.topk && StageChoices(model, old(State()), layer, experts, vss, |experts|)
                && Layer(State(), acc, fallbacks) ==
                   EngineStep(model, Layer(old(State()), zero, old(fallbacks)),
                              LayerCall(layer, experts, vss, swiglu, zero))
    {
      hide EngineInv, StageChoices, EngineStep;
      experts := TopK.Predict(logits, model.topk);
      if experts == [] { return zero, experts, []; }
      acc, vss := ForwardLayer(layer, experts, swiglu, zero);
    }
  }

  lemma NoChoices(m: Model, s: Prefetcher, layer: Int32, es: seq<Int32>)
    requires |es| <= m.topk
    ensures StageChoices(m, s, layer, es, [], 0)
  {
  }

  ghost predicate StagedSources(m: Model, s: Prefetcher, layer: Int32, es: seq<Int32>) {
    forall i :: 0 <= i < |es| && Key(layer, es[i]) in s.cache.blocks ==> LatestSource(s, Key(layer, es[i])).Some?
  }

  lemma StagedAll(m: Model, s: Prefetcher, layer: Int32, es: seq<Int32>, vss: seq<seq<Key>>)
    requires EngineInv(m, s) && |es| <= m.topk && |vss| == |es| && StageChoices(m, s, layer, es, vss, |es|)
    ensures StagedSources(m, StageTo(m, s, layer, es, vss, |es|), layer, es)
  {
    hide EngineInv, StageChoices, StageTo, LatestSource;
    var staged := StageTo(m, s, layer, es, vss, |es|);
    forall i | 0 <= i < |es| && Key(layer, es[i]) in staged.cache.blocks
      ensures LatestSource(staged, Key(layer, es[i])).Some?
    {
      StagedHaveSource(m, s, layer, es, vss, |es|, i);
    }
  }
}
