/**
 Ties in score: the map's order decides which of several lowest blocks goes. A rank may be
 lost exactly if nothing scores less than it, and must be lost exactly if everything else
 scores strictly more (dee.cpp/src/engine.cpp, dee.cpp/src/vram_cache.cpp).
 */
module RankTies {
  import opened Maps
  import opened ArenaSpec
  import opened CacheSpec
  import opened UniformCache
  import opened PrefetchSpec
  import opened EngineSpec
  import opened RankProtection

  // ---- the evictions that are possible ---------------------------------------------

  /** In a full cache, any block of lowest score may be the one that goes. */
  lemma VictimChoice(m: Model, t: Prefetcher, next: Key, v: Key)
    requires Room(m, t) && next !in t.cache.blocks && |t.cache.blocks| == Slots(t.cache, m.blobBytes)
    requires IsVictim(t.cache.blocks, v)
    ensures Choice(t.cache, next, m.blobBytes, [v])
  {
    hide PInv, Sound, Grid, Free;
    PInvParts(t);
    var c, b := Request(t.cache), m.blobBytes;
    IsVictimIn(c.blocks, v);
    EvictInv(c, v);
    EvictUniform(c, b, v);
    EvictAbstract(c, v);
    FreeHigh(c.arena, c.blocks[v].off, c.blocks[v].size);
    FullIff(c, b);
    FullIff(Evict(c, v), b);
    assert Victims(Evict(c, v), b, []);
    assert [v][1..] == [];
  }

  /** With room left, nothing goes. */
  lemma NoVictimChoice(m: Model, t: Prefetcher, next: Key)
    requires Room(m, t) && (next in t.cache.blocks || |t.cache.blocks| < Slots(t.cache, m.blobBytes))
    ensures Choice(t.cache, next, m.blobBytes, [])
  {
    hide PInv, Sound, Grid;
    PInvParts(t);
    FullIff(Request(t.cache), m.blobBytes);
  }

  lemma {:induction false} SomeLowest(blocks: map<Key, Block>) returns (v: Key)
    requires blocks != map[]
    ensures IsVictim(blocks, v)
    decreases |blocks|
  {
    var u :| u in blocks;
    v := u;
    var rest := blocks - {u};
    assert forall j :: j in blocks && j != u ==> j in rest && rest[j] == blocks[j];
    if rest != map[] {
      SizeRemove(blocks, u);
      var w := SomeLowest(rest);
      assert w in rest;
      if blocks[w].Score() < blocks[u].Score() { v := w; }
    }
  }

  lemma SomeChoice(m: Model, t: Prefetcher, next: Key) returns (vs: seq<Key>)
    requires Room(m, t)
    ensures Choice(t.cache, next, m.blobBytes, vs)
  {
    hide Room, Choice, IsVictim, Slots;
    RoomFull(m, t);
    RoomSlots(m, t);
    if next in t.cache.blocks || |t.cache.blocks| < Slots(t.cache, m.blobBytes) {
      NoVictimChoice(m, t, next);
      vs := [];
    } else {
      var v := SomeLowest(t.cache.blocks);
      VictimChoice(m, t, next, v);
      vs := [v];
    }
  }

  lemma RoomSlots(m: Model, t: Prefetcher)
    requires Room(m, t)
    ensures Slots(t.cache, m.blobBytes) >= 1
  {
    hide EngineInv, Uniform, Slots;
  }

  // ---- one step -----------------------------------------------------------------

  /** Staging `next` misses in a full cache. */
  ghost predicate Crowds(m: Model, t: Prefetcher, next: Key) {
    next !in t.cache.blocks && |t.cache.blocks| == Slots(t.cache, m.blobBytes)
  }

  lemma MayDisplaceIff(m: Model, t: Prefetcher, k: Key, next: Key)
    requires Room(m, t) && k in t.cache.blocks && k != next
    ensures (exists vs :: Choice(t.cache, next, m.blobBytes, vs) && Displaces(m, t, k, next, vs)) <==>
            Crowds(m, t, next) && IsVictim(t.cache.blocks, k)
  {
    hide Room, Choice, IsVictim, Slots;
    if Crowds(m, t, next) && IsVictim(t.cache.blocks, k) {
      VictimChoice(m, t, next, k);
      assert Displaces(m, t, k, next, [k]);
    }
    if vs :| Choice(t.cache, next, m.blobBytes, vs) && Displaces(m, t, k, next, vs) {
      DisplacesIff(m, t, k, next, vs);
    }
  }

  /** Another block of lowest score, unless every other block scores more. */
  lemma OtherLowest(blocks: map<Key, Block>, k: Key) returns (v: Key)
    requires k in blocks && !Outscored(blocks, k)
    ensures IsVictim(blocks, v) && v != k
  {
    v := SomeLowest(blocks);
    if v == k {
      var j :| j in blocks && j != k && blocks[j].Score() <= blocks[k].Score();
      v := j;
    }
  }

  lemma MustDisplaceIff(m: Model, t: Prefetcher, k: Key, next: Key)
    requires Room(m, t) && k in t.cache.blocks && k != next
    ensures (forall vs :: Choice(t.cache, next, m.blobBytes, vs) ==> Displaces(m, t, k, next, vs)) <==>
            Crowds(m, t, next) && Outscored(t.cache.blocks, k)
  {
    hide Room, Choice, IsVictim, Slots, Outscored;
    if Crowds(m, t, next) && Outscored(t.cache.blocks, k) {
      forall vs | Choice(t.cache, next, m.blobBytes, vs) ensures Displaces(m, t, k, next, vs) {
        DisplacesIff(m, t, k, next, vs);
      }
    } else if Crowds(m, t, next) {
      var v := OtherLowest(t.cache.blocks, k);
      VictimChoice(m, t, next, v);
      assert [v] != [k] by { assert [v][0] != [k][0]; }
    } else {
      var vs := SomeChoice(m, t, next);
    }
  }

  // ---- the whole of staging --------------------------------------------------------

  lemma ChoicesSame(m: Model, s: Prefetcher, layer: Int32, es: seq<Int32>, vss: seq<seq<Key>>, wss: seq<seq<Key>>,
                    n: nat)
    requires n <= |es| <= m.topk && |vss| >= n && |wss| >= n && forall i :: 0 <= i < n ==> vss[i] == wss[i]
    requires StageChoices(m, s, layer, es, vss, n)
    ensures StageChoices(m, s, layer, es, wss, n)
  {
    hide StageTo, Choice;
    forall i | 0 <= i < n && m.blob(es[i]).Some?
      ensures Choice(StageTo(m, s, layer, es, wss, i).cache, Key(layer, es[i]), m.blobBytes, wss[i])
    {
      StageToSame(m, s, layer, es, vss, wss, i);
    }
  }

  lemma ChoicesMore(m: Model, s: Prefetcher, layer: Int32, es: seq<Int32>, vss: seq<seq<Key>>, n: nat)
    requires n < |es| <= m.topk && |vss| > n && StageChoices(m, s, layer, es, vss, n)
    requires m.blob(es[n]).Some? ==>
               Choice(StageTo(m, s, layer, es, vss, n).cache, Key(layer, es[n]), m.blobBytes, vss[n])
    ensures StageChoices(m, s, layer, es, vss, n + 1)
  {
    hide StageTo, Choice;
  }

  /** Any possible beginning of staging can be completed. */
  lemma Complete(m: Model, s: Prefetcher, layer: Int32, es: seq<Int32>, vss: seq<seq<Key>>) returns (wss: seq<seq<Key>>)
    requires Room(m, s) && |vss| <= |es| <= m.topk && StageChoices(m, s, layer, es, vss, |vss|)
    ensures |wss| == |es| && vss <= wss && StageChoices(m, s, layer, es, wss, |es|)
  {
    hide Room, StageChoices, StageTo, Choice;
    wss := vss;
    while |wss| < |es|
      invariant |vss| <= |wss| <= |es| && vss <= wss && StageChoices(m, s, layer, es, wss, |wss|)
      decreases |es| - |wss|
    {
      var n := |wss|;
      StageToRoom(m, s, layer, es, wss, n);
      var vs := SomeChoice(m, StageTo(m, s, layer, es, wss, n), Key(layer, es[n]));
      var more := wss + [vs];
      StageToSame(m, s, layer, es, wss, more, n);
      ChoicesSame(m, s, layer, es, wss, more, n);
      ChoicesMore(m, s, layer, es, more, n);
      wss := more;
    }
  }

  /** `wss` are possible victims for a whole layer, agreeing with `vss` up to rank r. */
  ghost predicate Continues(m: Model, s: Prefetcher, layer: Int32, es: seq<Int32>, vss: seq<seq<Key>>,
                            wss: seq<seq<Key>>, r: nat)
    requires |es| <= m.topk && r < |vss|
  {
    |wss| == |es| && r < |es| && vss[..r + 1] == wss[..r + 1] && StageChoices(m, s, layer, es, wss, |es|)
  }

  ghost predicate LosesRank(m: Model, s: Prefetcher, layer: Int32, es: seq<Int32>, wss: seq<seq<Key>>, r: nat)
    requires r < |es| <= m.topk
  {
    |wss| == |es| && Key(layer, es[r]) !in StageTo(m, s, layer, es, wss, |es|).cache.blocks
  }

  /** Choosing `vs` when `next` is staged, after the same beginning, and completing. */
  lemma ContinueWith(m: Model, s: Prefetcher, layer: Int32, es: seq<Int32>, vss: seq<seq<Key>>, r: nat, next: nat,
                     vs: seq<Key>) returns (wss: seq<seq<Key>>)
    requires Room(m, s) && |es| <= m.topk && r < |vss| == |es| && NextAvailable(m, es, r, next) && next < |es|
    requires StageChoices(m, s, layer, es, vss, |es|)
    requires Choice(StageTo(m, s, layer, es, vss, r + 1).cache, Key(layer, es[next]), m.blobBytes, vs)
    ensures Continues(m, s, layer, es, vss, wss, r) && wss[next] == vs
  {
    hide Room, StageChoices, StageTo, Choice;
    var begin := vss[..next] + [vs];
    ChoicesPrefix(m, s, layer, es, vss, |es|, next);
    ChoicesSame(m, s, layer, es, vss, begin, next);
    StageSkips(m, s, layer, es, vss, r + 1, next);
    StageToSame(m, s, layer, es, vss, begin, next);
    ChoicesMore(m, s, layer, es, begin, next);
    wss := Complete(m, s, layer, es, begin);
    assert wss[..next + 1] == begin;
    forall i | 0 <= i < r + 1 ensures vss[i] == wss[i] { assert begin[i] == vss[i]; }
  }

  /** What a continuation decides about rank r is what it picks when the next prediction is staged. */
  lemma ContinuationLoses(m: Model, s: Prefetcher, layer: Int32, es: seq<Int32>, vss: seq<seq<Key>>, wss: seq<seq<Key>>,
                          r: nat, next: nat)
    requires Room(m, s) && Distinct(es) && |es| <= m.topk < PRIORITY_WEIGHT && r < |vss| == |es|
    requires m.blob(es[r]).Some? && NextAvailable(m, es, r, next) && Continues(m, s, layer, es, vss, wss, r)
    ensures var t := StageTo(m, s, layer, es, vss, r + 1);
            && LosesRank(m, s, layer, es, wss, r) ==
               (next < |es| && Displaces(m, t, Key(layer, es[r]), Key(layer, es[next]), wss[next]))
            && (next < |es| ==> Choice(t.cache, Key(layer, es[next]), m.blobBytes, wss[next]))
  {
    hide Room, StageChoices, StageTo, Choice, Displaces;
    forall i | 0 <= i < r + 1 ensures vss[i] == wss[i] { assert vss[..r + 1][i] == wss[..r + 1][i]; }
    StageToSame(m, s, layer, es, vss, wss, r + 1);
    RankLostIff(m, s, layer, es, wss, r, next);
    if next < |es| {
      ChoicesPrefix(m, s, layer, es, wss, |es|, next + 1);
      StageSkips(m, s, layer, es, wss, r + 1, next);
      StageToSuc(m, s, layer, es, wss, next + 1);
    }
  }

  /**
   Ties included, read off the cache right after rank r was staged: some order of the map
   loses rank r exactly if a later prediction is available, the first of them misses in a
   full cache, and no block scores less than rank r.
   */
  lemma MayLoseRankIff(m: Model, s: Prefetcher, layer: Int32, es: seq<Int32>, vss: seq<seq<Key>>, r: nat, next: nat)
    requires Room(m, s) && Distinct(es) && |es| <= m.topk < PRIORITY_WEIGHT
    requires r < |vss| == |es| && StageChoices(m, s, layer, es, vss, |es|)
    requires m.blob(es[r]).Some? && NextAvailable(m, es, r, next)
    ensures var t := StageTo(m, s, layer, es, vss, r + 1);
            (exists wss :: Continues(m, s, layer, es, vss, wss, r) && LosesRank(m, s, layer, es, wss, r)) <==>
            next < |es| && Crowds(m, t, Key(layer, es[next])) && IsVictim(t.cache.blocks, Key(layer, es[r]))
  {
    hide Room, StageChoices, StageTo, Choice, Displaces, IsVictim, Crowds, LosesRank, Continues;
    var t := StageTo(m, s, layer, es, vss, r + 1);
    ChoicesPrefix(m, s, layer, es, vss, |es|, r + 1);
    StagedEntry(m, s, layer, es, vss, r);
    if next < |es| { MayDisplaceIff(m, t, Key(layer, es[r]), Key(layer, es[next])); }
    if wss :| Continues(m, s, layer, es, vss, wss, r) && LosesRank(m, s, layer, es, wss, r) {
      ContinuesLength(m, s, layer, es, vss, wss, r);
      ContinuationLoses(m, s, layer, es, vss, wss, r, next);
    }
    if next < |es| && Crowds(m, t, Key(layer, es[next])) && IsVictim(t.cache.blocks, Key(layer, es[r])) {
      var vs :| Choice(t.cache, Key(layer, es[next]), m.blobBytes, vs)
                && Displaces(m, t, Key(layer, es[r]), Key(layer, es[next]), vs);
      var wss := ContinueWith(m, s, layer, es, vss, r, next, vs);
      ContinuesLength(m, s, layer, es, vss, wss, r);
      ContinuationLoses(m, s, layer, es, vss, wss, r, next);
    }
  }

  lemma ContinuesLength(m: Model, s: Prefetcher, layer: Int32, es: seq<Int32>, vss: seq<seq<Key>>,
                        wss: seq<seq<Key>>, r: nat)
    requires |es| <= m.topk && r < |vss| && Continues(m, s, layer, es, vss, wss, r)
    ensures |wss| == |es|
  {
  }

  /** ... and every order loses it exactly if every other block scores strictly more. */
  lemma MustLoseRankIff(m: Model, s: Prefetcher, layer: Int32, es: seq<Int32>, vss: seq<seq<Key>>, r: nat, next: nat)
    requires Room(m, s) && Distinct(es) && |es| <= m.topk < PRIORITY_WEIGHT
    requires r < |vss| == |es| && StageChoices(m, s, layer, es, vss, |es|)
    requires m.blob(es[r]).Some? && NextAvailable(m, es, r, next)
    ensures var t := StageTo(m, s, layer, es, vss, r + 1);
            && Key(layer, es[r]) in t.cache.blocks
            && ((forall wss :: Continues(m, s, layer, es, vss, wss, r) ==> LosesRank(m, s, layer, es, wss, r)) <==>
                next < |es| && Crowds(m, t, Key(layer, es[next])) && Outscored(t.cache.blocks, Key(layer, es[r])))
  {
    hide Room, StageChoices, StageTo, Choice, Displaces, Outscored, Crowds, LosesRank, Continues;
    var t := StageTo(m, s, layer, es, vss, r + 1);
    ChoicesPrefix(m, s, layer, es, vss, |es|, r + 1);
    StagedEntry(m, s, layer, es, vss, r);
    if next < |es| { MustDisplaceIff(m, t, Key(layer, es[r]), Key(layer, es[next])); }
    if next < |es| && Crowds(m, t, Key(layer, es[next])) && Outscored(t.cache.blocks, Key(layer, es[r])) {
      forall wss | Continues(m, s, layer, es, vss, wss, r) ensures LosesRank(m, s, layer, es, wss, r) {
        ContinuesLength(m, s, layer, es, vss, wss, r);
        ContinuationLoses(m, s, layer, es, vss, wss, r, next);
      }
    } else if next < |es| {
      var vs :| Choice(t.cache, Key(layer, es[next]), m.blobBytes, vs)
                && !Displaces(m, t, Key(layer, es[r]), Key(layer, es[next]), vs);
      var wss := ContinueWith(m, s, layer, es, vss, r, next, vs);
      ContinuesLength(m, s, layer, es, vss, wss, r);
      ContinuationLoses(m, s, layer, es, vss, wss, r, next);
    } else {
      ContinuesItself(m, s, layer, es, vss, r);
      ContinuationLoses(m, s, layer, es, vss, vss, r, next);
    }
  }

  lemma ContinuesItself(m: Model, s: Prefetcher, layer: Int32, es: seq<Int32>, vss: seq<seq<Key>>, r: nat)
    requires |es| <= m.topk && r < |vss| == |es| && StageChoices(m, s, layer, es, vss, |es|)
    ensures Continues(m, s, layer, es, vss, vss, r)
  {
  }
}
