/** The look-ahead ExpertCache of modal_step3_cache_manager.py with its fields updated in place. */
module LookAheads {
  import opened Wrappers
  import opened Maps
  import opened LookAheadSpec

  class ExpertCache {
    const capacity: int
    const topK: int
    var vram: set<int>
    var lastUsed: map<int, int>
    var loadCount: map<int, nat>
    var prefetchCount: map<int, nat>
    var asyncOps: seq<LogOp>
    var lookaheadRank: map<int, nat>
    var clock: nat

    ghost function State(): Experts
      reads this
    {
      Experts(capacity, topK, vram, lastUsed, loadCount, prefetchCount, asyncOps, lookaheadRank, clock)
    }

    constructor (cap: int, k: int)
      ensures State() == New(cap, k)
    {
      capacity, topK := cap, k;
      vram, lastUsed, loadCount, prefetchCount := {}, map[], map[], map[];
      asyncOps, lookaheadRank, clock := [], map[], 0;
    }

    method SetLookaheadRanked(predicted: seq<int>)
      modifies this
      ensures State() == SetLookahead(old(State()), predicted)
    {
      var ranks: map<int, nat> := map[];
      for i := 0 to |predicted|
        invariant ranks == Ranks(predicted[..i])
      {
        assert predicted[..i + 1][..i] == predicted[..i];
        ranks := ranks[predicted[i] := i];
      }
      assert predicted[..|predicted|] == predicted;
      lookaheadRank := ranks;
    }

    function Before(a: int, b: int): bool
      reads this
    {
      var baseA := if a in lookaheadRank then topK - lookaheadRank[a] else -1;
      var baseB := if b in lookaheadRank then topK - lookaheadRank[b] else -1;
      var usedA := if a in lastUsed then lastUsed[a] else 0;
      var usedB := if b in lastUsed then lastUsed[b] else 0;
      baseA < baseB || (baseA == baseB && usedA < usedB)
    }

    /** Remove one expert of lowest keep-score; nothing to do when VRAM is empty. */
    method Evict(token: int) returns (victim: Option<int>)
      modifies this
      ensures victim.None? <==> old(vram) == {}
      ensures victim.None? ==> State() == old(State())
      ensures victim.Some? ==>
                && IsVictim(old(State()), victim.value)
                && State() == LookAheadSpec.Evict(old(State()), victim.value, token)
    {
      if vram == {} { return None; }
      var v := Pick(vram);
      var rest := vram - {v};
      while rest != {}
        invariant State() == old(State()) && rest <= vram && v in vram
        invariant forall e :: e in vram && e !in rest ==> !ScoreLess(State(), e, v)
        decreases rest
      {
        var e := Pick(rest);
        rest := rest - {e};
        if Before(e, v) { v := e; }
      }
      vram := vram - {v};
      asyncOps := asyncOps + [Evicted(v, token)];
      victim := Some(v);
    }

    /** Evict if at capacity. */
    method Reserve(token: int) returns (ghost v: int)
      modifies this
      ensures RoomChoice(old(State()), v) && State() == MakeRoom(old(State()), v, token)
    {
      hide IsVictim;
      v := 0;
      if |vram| >= capacity {
        var victim := Evict(token);
        if victim.Some? { v := victim.value; }
      }
    }

    method LoadExpert(e: int)
      modifies this
      ensures State() == Load(old(State()), e)
    {
      vram := vram + {e};
      loadCount := loadCount[e := Count(loadCount, e) + 1];
    }

    method RecordPrefetch(e: int, token: int)
      modifies this
      ensures State() == LogPrefetch(old(State()), e, token)
    {
      prefetchCount := prefetchCount[e := Count(prefetchCount, e) + 1];
      lastUsed := lastUsed[e := token];
      asyncOps := asyncOps + [Prefetched(e, token)];
    }

    method Prefetch(e: int, token: int) returns (ghost v: int)
      modifies this
      ensures RoomChoice(old(State()), v) || e in old(vram)
      ensures State() == LookAheadSpec.Prefetch(old(State()), e, token, v)
    {
      hide RoomChoice, MakeRoom, Load, LogPrefetch;
      v := 0;
      ghost var s := State();
      clock := clock + 1;
      if e !in vram {
        v := Reserve(token);
        UntickChoice(s, v);
        LoadExpert(e);
      }
      RecordPrefetch(e, token);
    }

    method DeltaOne(e: int, token: int) returns (ghost v: int)
      modifies this
      ensures RoomChoice(old(State()), v) && State() == LookAheadSpec.DeltaOne(old(State()), e, token, v)
    {
      hide RoomChoice, MakeRoom, Load, LogPrefetch;
      ghost var s := State();
      clock := clock + 1;
      v := Reserve(token);
      UntickChoice(s, v);
      LoadExpert(e);
      RecordPrefetch(e, token);
    }

    /** Load only the predicted experts that are not resident. */
    method PrefetchDelta(predicted: seq<int>, token: int) returns (missing: seq<int>, ghost vs: seq<int>)
      modifies this
      ensures missing == Missing(old(vram), predicted) && |vs| == |missing|
      ensures DeltaChoices(old(State()), missing, token, vs, |missing|)
      ensures State() == LookAheadSpec.PrefetchDelta(old(State()), predicted, token, vs)
    {
      hide RoomChoice, LookAheadSpec.DeltaOne;
      missing := [];
      for i := 0 to |predicted|
        invariant missing == Missing(vram, predicted[..i]) && State() == old(State())
      {
        assert predicted[..i + 1][..i] == predicted[..i];
        if predicted[i] !in vram { missing := missing + [predicted[i]]; }
      }
      assert predicted[..|predicted|] == predicted;
      ghost var s := State();
      vs := [];
      for i := 0 to |missing|
        invariant |vs| == i && DeltaChoices(s, missing, token, vs, i)
        invariant State() == DeltaTo(s, missing, token, vs, i)
      {
        ghost var v := DeltaOne(missing[i], token);
        DeltaMore(s, missing, token, vs, v);
        vs := vs + [v];
      }
    }

    method RequestExpert(e: int, token: int) returns (hit: bool, ghost v: int)
      modifies this
      ensures RoomChoice(old(State()), v) || e in old(vram)
      ensures (State(), hit) == Request(old(State()), e, token, v)
    {
      hide RoomChoice, MakeRoom, Load;
      v := 0;
      ghost var s := State();
      clock := clock + 1;
      if e in vram {
        lastUsed := lastUsed[e := token];
        return true, 0;
      }
      v := Reserve(token);
      UntickChoice(s, v);
      LoadExpert(e);
      lastUsed := lastUsed[e := token];
      asyncOps := asyncOps + [FetchedOnMiss(e, token)];
      hit := false;
    }
  }

  lemma UntickChoice(c: Experts, v: int)
    requires RoomChoice(Tick(c), v)
    ensures RoomChoice(c, v)
  {
  }

  lemma DeltaMore(c: Experts, missing: seq<int>, token: int, vs: seq<int>, v: int)
    requires |vs| < |missing| && DeltaChoices(c, missing, token, vs, |vs|)
    requires RoomChoice(DeltaTo(c, missing, token, vs, |vs|), v)
    ensures DeltaChoices(c, missing, token, vs + [v], |vs| + 1)
    ensures DeltaTo(c, missing, token, vs + [v], |vs| + 1) ==
            LookAheadSpec.DeltaOne(DeltaTo(c, missing, token, vs, |vs|), missing[|vs|], token, v)
  {
    hide LookAheadSpec.DeltaOne, RoomChoice;
    DeltaExtend(c, missing, token, vs, v, |vs|);
    forall i | 0 <= i < |vs| + 1 ensures RoomChoice(DeltaTo(c, missing, token, vs + [v], i), (vs + [v])[i]) {
      DeltaExtend(c, missing, token, vs, v, i);
    }
  }
}
