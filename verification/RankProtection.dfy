/**
 Which predictions are resident when a layer computes (dee.cpp/src/engine.cpp). Once staged,
 a prediction can be lost only while the next available one is staged; whether it is, is
 decided by the cache at that point. The top-ranked and the last-staged prediction are safe.
 */
module RankProtection {
  import opened Memory
  import opened ArenaSpec
  import opened CacheSpec
  import opened Eviction
  import opened UniformCache
  import opened PrefetchSpec
  import opened StaleWeights
  import opened EngineSpec
  import opened Maps
  import TopK

  // ---- on the plain cache ---------------------------------------------------------

  /** A request loses another entry exactly if it misses, all entries are taken, and the victim is that entry. */
  lemma PlainLosesIff(p: Plain, slots: nat, k: Key, priority: Int32, vs: seq<Key>, x: Key)
    requires PlainChoice(p, slots, k, vs) && x in p.entries && x != k
    ensures x !in PlainEnsure(p, k, priority, vs).entries <==>
            k !in p.entries && |p.entries| >= slots && vs == [x]
    ensures x in PlainEnsure(p, k, priority, vs).entries ==>
              PlainEnsure(p, k, priority, vs).entries[x] == p.entries[x]
  {
  }

  /** `x` was used at tick t with priority pr, and some entry of lower priority is resident beside it. */
  ghost predicate Shielded(p: Plain, x: Key, t: nat, pr: Int32) {
    && x in p.entries && p.entries[x] == Entry(t, pr)
    && exists y :: y in p.entries && y != x && p.entries[y].priority < pr && p.entries[y].lastUsed <= p.tick
  }

  /** While it is shielded and its use is recent, no request evicts it; a request of lower priority shields it again. */
  lemma ShieldStep(p: Plain, slots: nat, k: Key, priority: Int32, vs: seq<Key>, x: Key, t: nat, pr: Int32)
    requires Shielded(p, x, t, pr) && p.tick < t + PRIORITY_WEIGHT
    requires PlainChoice(p, slots, k, vs) && k != x && priority < pr
    ensures Shielded(PlainEnsure(p, k, priority, vs), x, t, pr)
    ensures PlainEnsure(p, k, priority, vs).tick == p.tick + 1
  {
    var y :| y in p.entries && y != x && p.entries[y].priority < pr && p.entries[y].lastUsed <= p.tick;
    assert p.entries[y].Score() < p.entries[x].Score();
    PlainLosesIff(p, slots, k, priority, vs, x);
    assert vs != [x];
    var q := PlainEnsure(p, k, priority, vs);
    assert k in q.entries && q.entries[k] == Entry(p.tick + 1, priority);
  }

  // ---- on the engine ---------------------------------------------------------

  /** The engine's invariant with uniform blobs and room for at least one of them. */
  ghost predicate Room(m: Model, s: Prefetcher) {
    EngineInv(m, s) && Uniform(s.cache, m.blobBytes) && Slots(s.cache, m.blobBytes) >= 1
  }

  /** Staging an available expert succeeds, and acts on the abstract cache as one plain request. */
  lemma StagePlain(m: Model, s: Prefetcher, layer: Int32, es: seq<Int32>, i: nat, vs: seq<Key>)
    requires Room(m, s) && i < |es| <= m.topk && m.blob(es[i]).Some?
    requires Choice(s.cache, Key(layer, es[i]), m.blobBytes, vs)
    ensures var k := Key(layer, es[i]); var r := StageOne(m, s, layer, es, i, vs);
            var p := UniformCache.Abstract(s.cache);
            && Room(m, r) && k in r.cache.blocks
            && PlainChoice(p, Slots(s.cache, m.blobBytes), k, vs)
            && UniformCache.Abstract(r.cache) == PlainEnsure(p, k, m.topk - i, vs)
  {
    hide PInv, Inv, Uniform, Ensure, Choice, EngineSources, EngineBlocks, Step, PlainChoice, PlainEnsure, Slots,
         UniformCache.Abstract;
    var k := Key(layer, es[i]);
    PInvParts(s);
    StageInv(m, s, layer, es, i, vs);
    StepCache(s, StageOp(m, layer, es, i, vs));
    SlotsSame(s.cache, StageOne(m, s, layer, es, i, vs).cache, m.blobBytes);
    InvHigh(s.cache);
    EnsureRefinesPlain(s.cache, m.blobBytes, k, m.topk - i, vs);
    EnsureFrame(s.cache, k, m.blobBytes, m.topk - i, vs);
  }

  lemma StageNothing(m: Model, s: Prefetcher, layer: Int32, es: seq<Int32>, i: nat, vs: seq<Key>)
    requires i < |es| <= m.topk && m.blob(es[i]).None?
    ensures StageOne(m, s, layer, es, i, vs) == s
  {
  }

  ghost predicate Distinct(es: seq<Int32>) {
    forall i, j :: 0 <= i < j < |es| ==> es[i] != es[j]
  }

  lemma {:induction false} StageToRoom(m: Model, s: Prefetcher, layer: Int32, es: seq<Int32>, vss: seq<seq<Key>>,
                                       n: nat)
    requires Room(m, s) && n <= |es| <= m.topk && |vss| >= n && StageChoices(m, s, layer, es, vss, n)
    ensures Room(m, StageTo(m, s, layer, es, vss, n))
  {
    hide Room, Choice, StageOne, StageChoices, PlainChoice, PlainEnsure, UniformCache.Abstract;
    if n > 0 {
      StageToSuc(m, s, layer, es, vss, n);
      StageToRoom(m, s, layer, es, vss, n - 1);
      var t := StageTo(m, s, layer, es, vss, n - 1);
      if m.blob(es[n - 1]).Some? {
        StagePlain(m, t, layer, es, n - 1, vss[n - 1]);
      } else {
        StageNothing(m, t, layer, es, n - 1, vss[n - 1]);
      }
    }
  }

  lemma ChoicesPrefix(m: Model, s: Prefetcher, layer: Int32, es: seq<Int32>, vss: seq<seq<Key>>, n: nat, i: nat)
    requires i <= n <= |es| <= m.topk && |vss| >= n && StageChoices(m, s, layer, es, vss, n)
    ensures StageChoices(m, s, layer, es, vss, i)
  {
    hide StageTo, Choice;
  }

  /** `next` is the first available prediction after rank r, or the end of the list. */
  ghost predicate NextAvailable(m: Model, es: seq<Int32>, r: nat, next: nat) {
    && r < next <= |es|
    && (next < |es| ==> m.blob(es[next]).Some?)
    && forall i :: r < i < next ==> m.blob(es[i]).None?
  }

  lemma {:induction false} StageSkips(m: Model, s: Prefetcher, layer: Int32, es: seq<Int32>, vss: seq<seq<Key>>,
                                      i: nat, n: nat)
    requires i <= n <= |es| <= m.topk && |vss| >= n && forall j :: i <= j < n ==> m.blob(es[j]).None?
    ensures StageTo(m, s, layer, es, vss, n) == StageTo(m, s, layer, es, vss, i)
  {
    hide Step;
    if i < n { StageSkips(m, s, layer, es, vss, i, n - 1); }
  }

  /** A staged prediction is resident, used just now, with the priority of its rank. */
  lemma StagedEntry(m: Model, s: Prefetcher, layer: Int32, es: seq<Int32>, vss: seq<seq<Key>>, r: nat)
    requires Room(m, s) && r < |es| <= m.topk && |vss| > r && StageChoices(m, s, layer, es, vss, r + 1)
    requires m.blob(es[r]).Some?
    ensures var t := StageTo(m, s, layer, es, vss, r + 1); var p := UniformCache.Abstract(t.cache);
            var k := Key(layer, es[r]);
            && Room(m, t) && k in t.cache.blocks
            && k in p.entries && p.entries[k] == Entry(p.tick, m.topk - r)
  {
    hide Room, Choice, StageOne, StageChoices, PlainChoice, UniformCache.Abstract;
    StageToSuc(m, s, layer, es, vss, r + 1);
    StageToRoom(m, s, layer, es, vss, r);
    StagePlain(m, StageTo(m, s, layer, es, vss, r), layer, es, r, vss[r]);
  }

  /** Staging the next available prediction evicts `k`. */
  ghost predicate Displaces(m: Model, t: Prefetcher, k: Key, next: Key, vs: seq<Key>) {
    next !in t.cache.blocks && |t.cache.blocks| == Slots(t.cache, m.blobBytes) && vs == [k]
  }

  ghost predicate SafeAfter(m: Model, s: Prefetcher, k: Key, t: nat, pr: Int32, d: nat) {
    var p := UniformCache.Abstract(s.cache);
    Room(m, s) && Shielded(p, k, t, pr) && p.tick <= t + d
  }

  lemma RoomFull(m: Model, s: Prefetcher)
    requires Room(m, s)
    ensures |s.cache.blocks| <= Slots(s.cache, m.blobBytes)
    ensures |UniformCache.Abstract(s.cache).entries| == |s.cache.blocks|
    ensures UniformCache.Abstract(s.cache).entries.Keys == s.cache.blocks.Keys
  {
    hide PInv, Inv, Uniform, Slots;
    PInvParts(s);
    FullIff(s.cache, m.blobBytes);
    AbstractKeys(s.cache);
  }

  /** The one step at which rank r is in danger: the staging of the next available prediction. */
  lemma NextStaged(m: Model, t: Prefetcher, layer: Int32, es: seq<Int32>, r: nat, next: nat, vs: seq<Key>)
    requires Room(m, t) && r < next < |es| <= m.topk && es[r] != es[next] && m.blob(es[next]).Some?
    requires Choice(t.cache, Key(layer, es[next]), m.blobBytes, vs) && Key(layer, es[r]) in t.cache.blocks
    requires UniformCache.Abstract(t.cache).entries[Key(layer, es[r])] ==
             Entry(UniformCache.Abstract(t.cache).tick, m.topk - r)
    ensures var u := StageOne(m, t, layer, es, next, vs);
            var kr, kn := Key(layer, es[r]), Key(layer, es[next]);
            && Room(m, u)
            && (kr !in u.cache.blocks <==> Displaces(m, t, kr, kn, vs))
            && (kr in u.cache.blocks ==> SafeAfter(m, u, kr, UniformCache.Abstract(t.cache).tick, m.topk - r, 1))
  {
    hide Room, Choice, StageOne, PlainChoice, PlainEnsure, UniformCache.Abstract, Slots;
    var u := StageOne(m, t, layer, es, next, vs);
    var kr, kn := Key(layer, es[r]), Key(layer, es[next]);
    RoomFull(m, t);
    StagePlain(m, t, layer, es, next, vs);
    RoomFull(m, u);
    NextPlain(UniformCache.Abstract(t.cache), Slots(t.cache, m.blobBytes), kn, m.topk - next, vs, kr, m.topk - r);
  }

  lemma NextPlain(p: Plain, slots: nat, k: Key, priority: Int32, vs: seq<Key>, x: Key, pr: Int32)
    requires PlainChoice(p, slots, k, vs) && x in p.entries && x != k && priority < pr
    requires p.entries[x] == Entry(p.tick, pr)
    ensures var q := PlainEnsure(p, k, priority, vs);
            && (x !in q.entries <==> k !in p.entries && |p.entries| >= slots && vs == [x])
            && (x in q.entries ==> Shielded(q, x, p.tick, pr)) && q.tick == p.tick + 1
  {
    PlainLosesIff(p, slots, k, priority, vs, x);
    var q := PlainEnsure(p, k, priority, vs);
    assert k in q.entries && q.entries[k] == Entry(p.tick + 1, priority);
  }

  lemma SafeStage(m: Model, s: Prefetcher, layer: Int32, es: seq<Int32>, r: nat, i: nat, vs: seq<Key>, t: nat, d: nat)
    requires r < i < |es| <= m.topk && es[r] != es[i]
    requires SafeAfter(m, s, Key(layer, es[r]), t, m.topk - r, d) && d < PRIORITY_WEIGHT
    requires m.blob(es[i]).Some? ==> Choice(s.cache, Key(layer, es[i]), m.blobBytes, vs)
    ensures SafeAfter(m, StageOne(m, s, layer, es, i, vs), Key(layer, es[r]), t, m.topk - r, d + 1)
  {
    hide Room, Choice, UniformCache.Abstract, PlainEnsure, PlainChoice, Shielded, StageOne, Slots;
    if m.blob(es[i]).Some? {
      StagePlain(m, s, layer, es, i, vs);
      ShieldStep(UniformCache.Abstract(s.cache), Slots(s.cache, m.blobBytes), Key(layer, es[i]), m.topk - i, vs,
                 Key(layer, es[r]), t, m.topk - r);
    } else {
      StageNothing(m, s, layer, es, i, vs);
    }
  }

  lemma AbsentStage(m: Model, s: Prefetcher, layer: Int32, es: seq<Int32>, i: nat, vs: seq<Key>, k: Key)
    requires EngineInv(m, s) && i < |es| <= m.topk && k != Key(layer, es[i]) && k !in s.cache.blocks
    ensures k !in StageOne(m, s, layer, es, i, vs).cache.blocks
  {
    hide PInv, Inv, Step, EngineBlocks, EngineSources;
    PInvParts(s);
    if m.blob(es[i]).Some? { StepKeepsAbsent(s, StageOp(m, layer, es, i, vs), k); }
  }

  /** What has survived the staging of `next` survives the rest; what has not stays lost. */
  lemma {:induction false} RestStaged(m: Model, s: Prefetcher, layer: Int32, es: seq<Int32>, vss: seq<seq<Key>>,
                                      r: nat, next: nat, n: nat, t: nat)
    requires Room(m, s) && Distinct(es) && r < next < n <= |es| <= m.topk && m.topk < PRIORITY_WEIGHT
    requires |vss| >= n && StageChoices(m, s, layer, es, vss, n)
    requires var u := StageTo(m, s, layer, es, vss, next + 1);
             Key(layer, es[r]) in u.cache.blocks ==> SafeAfter(m, u, Key(layer, es[r]), t, m.topk - r, 1)
    ensures var u, w := StageTo(m, s, layer, es, vss, next + 1), StageTo(m, s, layer, es, vss, n);
            && (Key(layer, es[r]) in u.cache.blocks ==> SafeAfter(m, w, Key(layer, es[r]), t, m.topk - r, n - next))
            && (Key(layer, es[r]) !in u.cache.blocks ==> Key(layer, es[r]) !in w.cache.blocks)
  {
    hide Room, Choice, SafeAfter, StageOne, StageChoices, StageTo;
    if next + 1 < n {
      StageToSuc(m, s, layer, es, vss, n);
      RestStaged(m, s, layer, es, vss, r, next, n - 1, t);
      var v := StageTo(m, s, layer, es, vss, n - 1);
      StageToRoom(m, s, layer, es, vss, n - 1);
      RoomEngine(m, v);
      if Key(layer, es[r]) in StageTo(m, s, layer, es, vss, next + 1).cache.blocks {
        SafeStage(m, v, layer, es, r, n - 1, vss[n - 1], t, n - 1 - next);
      } else {
        AbsentStage(m, v, layer, es, n - 1, vss[n - 1], Key(layer, es[r]));
      }
    }
  }

  lemma RoomEngine(m: Model, s: Prefetcher)
    requires Room(m, s)
    ensures EngineInv(m, s)
  {
    hide EngineInv;
  }

  lemma SafeResident(m: Model, s: Prefetcher, k: Key, t: nat, pr: Int32, d: nat)
    requires SafeAfter(m, s, k, t, pr, d)
    ensures k in s.cache.blocks
  {
    hide EngineInv, Uniform, UniformCache.Abstract;
    AbstractKeys(s.cache);
  }

  /**
   Every rank. An available prediction is resident once staged; it is lost by the time the
   layer computes exactly if the next available prediction, when staged, misses, finds all
   entries taken and evicts it. Later ranks cannot evict it any more.
   */
  lemma RankLostIff(m: Model, s: Prefetcher, layer: Int32, es: seq<Int32>, vss: seq<seq<Key>>, r: nat, next: nat)
    requires Room(m, s) && Distinct(es) && |es| <= m.topk < PRIORITY_WEIGHT
    requires |vss| == |es| && StageChoices(m, s, layer, es, vss, |es|)
    requires r < |es| && m.blob(es[r]).Some? && NextAvailable(m, es, r, next)
    ensures var t := StageTo(m, s, layer, es, vss, r + 1);
            var resident := StageTo(m, s, layer, es, vss, |es|).cache.blocks;
            && Key(layer, es[r]) in t.cache.blocks
            && (Key(layer, es[r]) !in resident <==>
                next < |es| && Displaces(m, t, Key(layer, es[r]), Key(layer, es[next]), vss[next]))
  {
    hide Room, Choice, SafeAfter, StageOne, StageChoices, StageTo, UniformCache.Abstract, Displaces;
    ChoicesPrefix(m, s, layer, es, vss, |es|, r + 1);
    StagedEntry(m, s, layer, es, vss, r);
    StageSkips(m, s, layer, es, vss, r + 1, next);
    if next < |es| {
      var t := StageTo(m, s, layer, es, vss, next);
      ChoicesPrefix(m, s, layer, es, vss, |es|, next + 1);
      StageToSuc(m, s, layer, es, vss, next + 1);
      NextStaged(m, t, layer, es, r, next, vss[next]);
      RestStaged(m, s, layer, es, vss, r, next, |es|, UniformCache.Abstract(t.cache).tick);
      var u := StageTo(m, s, layer, es, vss, next + 1);
      if Key(layer, es[r]) in u.cache.blocks {
        SafeResident(m, StageTo(m, s, layer, es, vss, |es|), Key(layer, es[r]),
                     UniformCache.Abstract(t.cache).tick, m.topk - r, |es| - next);
      }
    }
  }

  // ---- the guard, read off the cache ---------------------------------------------

  /** Every other block scores strictly more. */
  ghost predicate Outscored(blocks: map<Key, Block>, k: Key)
    requires k in blocks
  {
    forall j :: j in blocks && j != k ==> blocks[k].Score() < blocks[j].Score()
  }

  /** No other block scores the same. */
  ghost predicate Untied(blocks: map<Key, Block>, k: Key)
    requires k in blocks
  {
    forall j :: j in blocks && j != k ==> blocks[k].Score() != blocks[j].Score()
  }

  /** Ties cannot happen while the clock is at most 2^20. */
  lemma UntiedEarly(c: Cache, k: Key)
    requires Inv(c) && c.tick <= PRIORITY_WEIGHT && k in c.blocks
    ensures Untied(c.blocks, k)
  {
    hide Tiles, BlocksDisjoint;
    forall j | j in c.blocks && j != k ensures c.blocks[k].Score() != c.blocks[j].Score() {
      ScoreIsLexicographic(c.blocks[j], c.blocks[k], c.tick);
      ScoreIsLexicographic(c.blocks[k], c.blocks[j], c.tick);
    }
  }

  /**
   When the next prediction displaces k: only if it misses, all entries are taken and no
   block scores less than k; always if moreover every other block scores strictly more.
   Without a tie the two conditions are one.
   */
  lemma DisplacesIff(m: Model, t: Prefetcher, k: Key, next: Key, vs: seq<Key>)
    requires Room(m, t) && k in t.cache.blocks && k != next && Choice(t.cache, next, m.blobBytes, vs)
    ensures Displaces(m, t, k, next, vs) ==>
              next !in t.cache.blocks && |t.cache.blocks| == Slots(t.cache, m.blobBytes) && IsVictim(t.cache.blocks, k)
    ensures (&& next !in t.cache.blocks && |t.cache.blocks| == Slots(t.cache, m.blobBytes)
             && Outscored(t.cache.blocks, k)) ==> Displaces(m, t, k, next, vs)
    ensures Untied(t.cache.blocks, k) ==>
              (Displaces(m, t, k, next, vs) <==>
               && next !in t.cache.blocks && |t.cache.blocks| == Slots(t.cache, m.blobBytes)
               && Outscored(t.cache.blocks, k))
  {
    hide PInv, Sound, Grid;
    PInvParts(t);
    if next !in t.cache.blocks {
      VictimsUniform(Request(t.cache), m.blobBytes, vs);
      if vs != [] { assert IsVictim(t.cache.blocks, vs[0]); }
    }
  }

  // ---- how many are skipped ------------------------------------------------------

  /** Rank i contributes nothing: its tensors are missing, or the next available prediction displaced it. */
  ghost predicate Dropped(m: Model, s: Prefetcher, layer: Int32, es: seq<Int32>, vss: seq<seq<Key>>, i: nat)
    requires i < |es| <= m.topk && |vss| == |es|
  {
    || m.blob(es[i]).None?
    || exists next: nat :: NextAvailable(m, es, i, next) && next < |es|
                      && Displaces(m, StageTo(m, s, layer, es, vss, i + 1), Key(layer, es[i]), Key(layer, es[next]),
                                   vss[next])
  }

  ghost function DroppedTo(m: Model, s: Prefetcher, layer: Int32, es: seq<Int32>, vss: seq<seq<Key>>, n: nat): nat
    requires n <= |es| <= m.topk && |vss| == |es|
  {
    if n == 0 then 0
    else DroppedTo(m, s, layer, es, vss, n - 1) + if Dropped(m, s, layer, es, vss, n - 1) then 1 else 0
  }

  lemma FindNext(m: Model, es: seq<Int32>, r: nat) returns (next: nat)
    requires r < |es|
    ensures NextAvailable(m, es, r, next)
  {
    next := r + 1;
    while next < |es| && m.blob(es[next]).None?
      invariant r < next <= |es| && forall i :: r < i < next ==> m.blob(es[i]).None?
    {
      next := next + 1;
    }
  }

  lemma NextUnique(m: Model, es: seq<Int32>, r: nat, a: nat, b: nat)
    requires NextAvailable(m, es, r, a) && NextAvailable(m, es, r, b)
    ensures a == b
  {
  }

  lemma ResidentIffNotDropped(m: Model, s: Prefetcher, layer: Int32, es: seq<Int32>, vss: seq<seq<Key>>, i: nat)
    requires Room(m, s) && Distinct(es) && |es| <= m.topk < PRIORITY_WEIGHT
    requires |vss| == |es| && StageChoices(m, s, layer, es, vss, |es|) && i < |es|
    ensures Key(layer, es[i]) in StageTo(m, s, layer, es, vss, |es|).cache.blocks <==> !Dropped(m, s, layer, es, vss, i)
  {
    hide Room, StageChoices, StageTo, Displaces, NextAvailable;
    if m.blob(es[i]).None? {
      StageToRoom(m, s, layer, es, vss, |es|);
      RoomEngine(m, StageTo(m, s, layer, es, vss, |es|));
      hide EngineInv;
      EngineFacts(m, StageTo(m, s, layer, es, vss, |es|));
    } else {
      var next := FindNext(m, es, i);
      RankLostIff(m, s, layer, es, vss, i, next);
      forall other: nat | NextAvailable(m, es, i, other) ensures other == next { NextUnique(m, es, i, other, next); }
    }
  }

  lemma {:induction false} SkippedIsDropped(m: Model, s: Prefetcher, layer: Int32, es: seq<Int32>,
                                            vss: seq<seq<Key>>, n: nat)
    requires Room(m, s) && Distinct(es) && |es| <= m.topk < PRIORITY_WEIGHT
    requires |vss| == |es| && StageChoices(m, s, layer, es, vss, |es|) && n <= |es|
    ensures Skipped(layer, es[..n], StageTo(m, s, layer, es, vss, |es|).cache.blocks.Keys) ==
            DroppedTo(m, s, layer, es, vss, n)
  {
    hide Room, StageChoices, StageTo, Dropped;
    if n > 0 {
      SkippedIsDropped(m, s, layer, es, vss, n - 1);
      ResidentIffNotDropped(m, s, layer, es, vss, n - 1);
      assert es[..n][..n - 1] == es[..n - 1];
    }
  }

  // ---- rank 0 --------------------------------------------------------------------

  lemma OtherBlock(blocks: map<Key, Block>, k: Key) returns (j: Key)
    requires k in blocks && |blocks| >= 2
    ensures j in blocks && j != k
  {
    SizeRemove(blocks, k);
    assert blocks - {k} != map[];
    j :| j in blocks - {k};
  }

  lemma NewestScoresMost(m: Model, t: Prefetcher, k: Key, j: Key)
    requires Room(m, t) && k in t.cache.blocks && j in t.cache.blocks && j != k
    requires t.cache.blocks[k].lastUsed == t.cache.tick && t.cache.blocks[k].priority == m.topk
    ensures t.cache.blocks[j].Score() < t.cache.blocks[k].Score()
  {
    hide Tiles, QInv, EngineSources, Uniform, BlocksDisjoint;
  }

  /** With room for two, rank 0 outscores whatever it shares the cache with, so it is never displaced. */
  lemma RankZeroKept(m: Model, t: Prefetcher, k: Key, next: Key, vs: seq<Key>)
    requires Room(m, t) && Slots(t.cache, m.blobBytes) >= 2 && k in t.cache.blocks && k != next
    requires t.cache.blocks[k].lastUsed == t.cache.tick && t.cache.blocks[k].priority == m.topk
    requires Choice(t.cache, next, m.blobBytes, vs)
    ensures !Displaces(m, t, k, next, vs)
  {
    hide Room, Choice, Slots;
    DisplacesIff(m, t, k, next, vs);
    if |t.cache.blocks| >= 2 {
      var j := OtherBlock(t.cache.blocks, k);
      NewestScoresMost(m, t, k, j);
    }
  }

  lemma RankZeroStaged(m: Model, s: Prefetcher, layer: Int32, es: seq<Int32>, vss: seq<seq<Key>>)
    requires Room(m, s) && Slots(s.cache, m.blobBytes) >= 2 && 0 < |es| <= m.topk
    requires |vss| == |es| && StageChoices(m, s, layer, es, vss, 1) && m.blob(es[0]).Some?
    ensures var t := StageTo(m, s, layer, es, vss, 1); var k := Key(layer, es[0]);
            && Room(m, t) && Slots(t.cache, m.blobBytes) >= 2 && k in t.cache.blocks
            && t.cache.blocks[k].lastUsed == t.cache.tick && t.cache.blocks[k].priority == m.topk
  {
    hide Room, StageChoices, StageTo, UniformCache.Abstract, Slots;
    var t := StageTo(m, s, layer, es, vss, 1);
    StagedEntry(m, s, layer, es, vss, 0);
    RoomEngine(m, s);
    StageToInv(m, s, layer, es, vss, 1);
    SlotsSame(s.cache, t.cache, m.blobBytes);
    EntryBlock(t.cache, Key(layer, es[0]));
  }

  lemma RankZeroResident(m: Model, s: Prefetcher, layer: Int32, es: seq<Int32>, vss: seq<seq<Key>>)
    requires Room(m, s) && Slots(s.cache, m.blobBytes) >= 2 && Distinct(es) && 0 < |es| <= m.topk < PRIORITY_WEIGHT
    requires |vss| == |es| && StageChoices(m, s, layer, es, vss, |es|) && m.blob(es[0]).Some?
    ensures Key(layer, es[0]) in StageTo(m, s, layer, es, vss, |es|).cache.blocks
  {
    hide Room, Choice, StageOne, StageChoices, StageTo, Displaces, Slots;
    var next := FindNext(m, es, 0);
    RankLostIff(m, s, layer, es, vss, 0, next);
    if next < |es| {
      ChoicesPrefix(m, s, layer, es, vss, |es|, 1);
      ChoicesPrefix(m, s, layer, es, vss, |es|, next + 1);
      RankZeroStaged(m, s, layer, es, vss);
      StageSkips(m, s, layer, es, vss, 1, next);
      StageToSuc(m, s, layer, es, vss, next + 1);
      RankZeroKept(m, StageTo(m, s, layer, es, vss, 1), Key(layer, es[0]), Key(layer, es[next]), vss[next]);
    }
  }

  lemma EntryBlock(c: Cache, k: Key)
    requires k in c.blocks
    ensures var p := UniformCache.Abstract(c);
            k in p.entries && p.entries[k] == Entry(c.blocks[k].lastUsed, c.blocks[k].priority) && p.tick == c.tick
  {
  }

  // ---- whole runs ----------------------------------------------------------

  lemma ComputeOneRoom<A>(m: Model, l: Layer<A>, k: Key, swiglu: (A, seq<Byte>) -> A)
    requires Uniform(l.state.cache, m.blobBytes)
    ensures Uniform(ComputeOne(l, k, swiglu).state.cache, m.blobBytes)
    ensures ComputeOne(l, k, swiglu).state.cache.arena == l.state.cache.arena
  {
    hide Uniform, Wait, BlockBytes;
    WaitFrame(l.state, k);
    if k in l.state.cache.blocks {
      RefreshUniform(l.state.cache, m.blobBytes, k, l.state.cache.blocks[k].priority);
    }
  }

  lemma {:induction false} ComputeToRoom<A>(m: Model, l: Layer<A>, layer: Int32, es: seq<Int32>,
                                            swiglu: (A, seq<Byte>) -> A, n: nat)
    requires Uniform(l.state.cache, m.blobBytes) && n <= |es|
    ensures Uniform(ComputeTo(l, layer, es, swiglu, n).state.cache, m.blobBytes)
    ensures ComputeTo(l, layer, es, swiglu, n).state.cache.arena == l.state.cache.arena
  {
    hide Uniform, ComputeOne;
    if n > 0 {
      ComputeToRoom(m, l, layer, es, swiglu, n - 1);
      ComputeOneRoom(m, ComputeTo(l, layer, es, swiglu, n - 1), Key(layer, es[n - 1]), swiglu);
    }
  }

  lemma EngineStepRoom<A>(m: Model, l: Layer<A>, call: Call<A>)
    requires Room(m, l.state) && CallPossible(m, l, call)
    ensures Room(m, EngineStep(m, l, call).state)
    ensures EngineStep(m, l, call).state.cache.arena.cap == l.state.cache.arena.cap
  {
    hide EngineInv, Uniform, StageTo, StageChoices, ComputeTo;
    EngineStepInv(m, l, call);
    if call.LayerCall? {
      StageToInv(m, l.state, call.layer, call.experts, call.victims, |call.experts|);
      StageToRoom(m, l.state, call.layer, call.experts, call.victims, |call.experts|);
      ComputeToRoom(m, Layer(Staged(m, l, call), call.zero, l.fallbacks), call.layer, call.experts, call.swiglu,
                    |call.experts|);
    }
  }

  lemma StartRoom(m: Model, s: Prefetcher)
    requires Fresh(s) && m.Valid(s.cache.arena.cap) && 0 < m.blobBytes <= s.cache.arena.cap
    ensures Room(m, s)
  {
    hide EngineInv, Inv, Uniform;
    StartEngineInv(m, s);
    EmptyUniformOk(s.cache.arena.cap, m.blobBytes);
    FitsIff(s.cache.arena.cap, m.blobBytes, 0);
  }

  lemma {:induction false} EngineRunRoom<A>(m: Model, ls: seq<Layer<A>>, calls: seq<Call<A>>, i: nat)
    requires EngineRun(m, ls, calls) && i < |ls| && Fresh(ls[0].state) && m.Valid(ls[0].state.cache.arena.cap)
    requires 0 < m.blobBytes <= ls[0].state.cache.arena.cap
    ensures Room(m, ls[i].state) && ls[i].state.cache.arena.cap == ls[0].state.cache.arena.cap
  {
    hide Room, CallPossible, EngineStep, Fresh;
    if i == 0 {
      StartRoom(m, ls[0].state);
    } else {
      EngineRunRoom(m, ls, calls, i - 1);
      EngineStepRoom(m, ls[i - 1], calls[i - 1]);
    }
  }

  // ---- main results ----------------------------------------------------------

  /** In every layer call of every run, exactly the dropped ranks are skipped. */
  lemma RunSkips<A>(m: Model, ls: seq<Layer<A>>, calls: seq<Call<A>>, i: nat)
    requires EngineRun(m, ls, calls) && i < |calls| && Fresh(ls[0].state) && m.Valid(ls[0].state.cache.arena.cap)
    requires 0 < m.blobBytes <= ls[0].state.cache.arena.cap && m.topk < PRIORITY_WEIGHT
    requires calls[i].LayerCall? && Distinct(calls[i].experts)
    ensures var c := calls[i];
            && (forall r :: 0 <= r < |c.experts| ==>
                  (Key(c.layer, c.experts[r]) in Staged(m, ls[i], c).cache.blocks <==>
                   !Dropped(m, ls[i].state, c.layer, c.experts, c.victims, r)))
            && ls[i + 1].fallbacks ==
               ls[i].fallbacks + DroppedTo(m, ls[i].state, c.layer, c.experts, c.victims, |c.experts|)
  {
    hide Room, StageTo, StageChoices, Fresh, EngineStep, Dropped, DroppedTo, Output;
    EngineRunRoom(m, ls, calls, i);
    var c := calls[i];
    forall r | 0 <= r < |c.experts|
      ensures Key(c.layer, c.experts[r]) in Staged(m, ls[i], c).cache.blocks <==>
              !Dropped(m, ls[i].state, c.layer, c.experts, c.victims, r)
    {
      ResidentIffNotDropped(m, ls[i].state, c.layer, c.experts, c.victims, r);
    }
    SkippedIsDropped(m, ls[i].state, c.layer, c.experts, c.victims, |c.experts|);
    assert c.experts[..|c.experts|] == c.experts;
    RunOutputs(m, ls, calls, i);
  }

  /**
   Which rank is lost, read off the cache right after it was staged. In every layer call of
   every run, barring a tie in score (and there is none while the clock is at most 2^20), rank
   r is lost exactly if a later prediction is available and the first of them is not
   resident, all C = budget / blob size entries are taken, and every other one scores more.
   */
  lemma RunRankLostIff<A>(m: Model, ls: seq<Layer<A>>, calls: seq<Call<A>>, i: nat, r: nat, next: nat)
    requires EngineRun(m, ls, calls) && i < |calls| && Fresh(ls[0].state) && m.Valid(ls[0].state.cache.arena.cap)
    requires 0 < m.blobBytes <= ls[0].state.cache.arena.cap && m.topk < PRIORITY_WEIGHT
    requires calls[i].LayerCall? && Distinct(calls[i].experts)
    requires r < |calls[i].experts| && m.blob(calls[i].experts[r]).Some? && NextAvailable(m, calls[i].experts, r, next)
    ensures var c := calls[i]; var k := Key(c.layer, c.experts[r]);
            var t := StageTo(m, ls[i].state, c.layer, c.experts, c.victims, r + 1).cache;
            && k in t.blocks
            && (t.tick <= PRIORITY_WEIGHT ==> Untied(t.blocks, k))
            && (Untied(t.blocks, k) ==>
                (k !in Staged(m, ls[i], c).cache.blocks <==>
                 && next < |c.experts| && Key(c.layer, c.experts[next]) !in t.blocks
                 && |t.blocks| == ls[0].state.cache.arena.cap / m.blobBytes && Outscored(t.blocks, k)))
  {
    hide Room, Choice, StageOne, StageTo, StageChoices, Fresh, EngineStep, Displaces, Untied, Outscored;
    EngineRunRoom(m, ls, calls, i);
    var c := calls[i];
    var s, es, vss := ls[i].state, c.experts, c.victims;
    var k := Key(c.layer, es[r]);
    RankLostIff(m, s, c.layer, es, vss, r, next);
    var t := StageTo(m, s, c.layer, es, vss, r + 1);
    ChoicesPrefix(m, s, c.layer, es, vss, |es|, r + 1);
    StagedEntry(m, s, c.layer, es, vss, r);
    RoomEngine(m, s);
    StageToInv(m, s, c.layer, es, vss, r + 1);
    if t.cache.tick <= PRIORITY_WEIGHT { RoomUntied(m, t, k); }
    if next < |es| {
      ChoicesPrefix(m, s, c.layer, es, vss, |es|, next + 1);
      StageSkips(m, s, c.layer, es, vss, r + 1, next);
      StageToSuc(m, s, c.layer, es, vss, next + 1);
      DisplacesIff(m, t, k, Key(c.layer, es[next]), vss[next]);
    }
  }

  lemma RoomUntied(m: Model, t: Prefetcher, k: Key)
    requires Room(m, t) && k in t.cache.blocks && t.cache.tick <= PRIORITY_WEIGHT
    ensures Untied(t.cache.blocks, k)
  {
    hide PInv, Inv, Uniform, Untied;
    PInvParts(t);
    UntiedEarly(t.cache, k);
  }

  lemma LastNotDropped(m: Model, s: Prefetcher, layer: Int32, es: seq<Int32>, vss: seq<seq<Key>>, last: nat)
    requires last < |es| <= m.topk && |vss| == |es| && m.blob(es[last]).Some?
    requires forall j :: last < j < |es| ==> m.blob(es[j]).None?
    ensures !Dropped(m, s, layer, es, vss, last)
  {
    hide Displaces, StageTo;
  }

  /**
   Rank protection. In every layer call of every run, with a budget of at least two blobs,
   distinct predictions and topk below 2^20: if the rank-0 expert is available it is
   resident when the layer computes, and so is the last available prediction.
   */
  lemma RunProtects<A>(m: Model, ls: seq<Layer<A>>, calls: seq<Call<A>>, i: nat, last: nat)
    requires EngineRun(m, ls, calls) && i < |calls| && Fresh(ls[0].state) && m.Valid(ls[0].state.cache.arena.cap)
    requires 0 < m.blobBytes && 2 * m.blobBytes <= ls[0].state.cache.arena.cap && m.topk < PRIORITY_WEIGHT
    requires calls[i].LayerCall? && Distinct(calls[i].experts) && last < |calls[i].experts|
    requires m.blob(calls[i].experts[last]).Some?
    requires forall j :: last < j < |calls[i].experts| ==> m.blob(calls[i].experts[j]).None?
    ensures var c := calls[i]; var resident := Staged(m, ls[i], c).cache.blocks.Keys;
            && (m.blob(c.experts[0]).Some? ==> Key(c.layer, c.experts[0]) in resident)
            && Key(c.layer, c.experts[last]) in resident
  {
    hide Room, StageTo, StageChoices, Fresh, EngineStep, Dropped, Slots;
    EngineRunRoom(m, ls, calls, i);
    var c := calls[i];
    LastNotDropped(m, ls[i].state, c.layer, c.experts, c.victims, last);
    ResidentIffNotDropped(m, ls[i].state, c.layer, c.experts, c.victims, last);
    if m.blob(c.experts[0]).Some? {
      SlotsSame(ls[0].state.cache, ls[i].state.cache, m.blobBytes);
      TwoSlots(ls[0].state.cache, m.blobBytes);
      RankZeroResident(m, ls[i].state, c.layer, c.experts, c.victims);
    }
  }

  lemma TwoSlots(c: Cache, b: nat)
    requires 0 < b && 2 * b <= c.arena.cap
    ensures Slots(c, b) >= 2
  {
    FitsIff(c.arena.cap, b, 1);
  }

  /** The same for what OracleScheduler::predict returns, whatever the logits: it is distinct and short enough. */
  lemma PredictionsProtected<A>(m: Model, ls: seq<Layer<A>>, calls: seq<Call<A>>, i: nat, last: nat, logits: seq<real>)
    requires EngineRun(m, ls, calls) && i < |calls| && Fresh(ls[0].state) && m.Valid(ls[0].state.cache.arena.cap)
    requires 0 < m.blobBytes && 2 * m.blobBytes <= ls[0].state.cache.arena.cap && m.topk < PRIORITY_WEIGHT
    requires calls[i].LayerCall? && TopK.IsTopK(calls[i].experts, logits, m.topk) && last < |calls[i].experts|
    requires m.blob(calls[i].experts[last]).Some?
    requires forall j :: last < j < |calls[i].experts| ==> m.blob(calls[i].experts[j]).None?
    ensures var c := calls[i]; var resident := Staged(m, ls[i], c).cache.blocks.Keys;
            && (m.blob(c.experts[0]).Some? ==> Key(c.layer, c.experts[0]) in resident)
            && Key(c.layer, c.experts[last]) in resident
            && (forall e :: 0 <= e < |logits| ==> logits[e] <= logits[c.experts[0]])
  {
    hide EngineRun, Fresh, Staged;
    RunProtects(m, ls, calls, i, last);
    assert Distinct(calls[i].experts);
    forall e | 0 <= e < |logits| ensures logits[e] <= logits[calls[i].experts[0]] {
      if e in calls[i].experts { assert exists j :: 0 <= j < |calls[i].experts| && calls[i].experts[j] == e; }
    }
  }
}
