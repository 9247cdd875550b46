/**
 The look-ahead ExpertCache of modal_step3_cache_manager.py on values: rank-weighted
 eviction, delta prefetch and an operation log. Python's min() over a set resolves ties
 by set order, so each call takes the victim of a possible eviction as an argument.
 */
module LookAheadSpec {
  import opened Maps

  datatype LogOp = Prefetched(id: int, token: int) | FetchedOnMiss(id: int, token: int) | Evicted(id: int, token: int)

  datatype Experts = Experts(capacity: int, topK: int, vram: set<int>, lastUsed: map<int, int>,
                             loadCount: map<int, nat>, prefetchCount: map<int, nat>,
                             ops: seq<LogOp>, rank: map<int, nat>, clock: nat)

  function New(capacity: int, topK: int): Experts {
    Experts(capacity, topK, {}, map[], map[], map[], [], map[], 0)
  }

  // ---- the score -------------------------------------------------------------

  /** Predicted experts by rank, the others last. */
  function Base(c: Experts, e: int): int { if e in c.rank then c.topK - c.rank[e] else -1 }

  function Recency(c: Experts, e: int): int { if e in c.lastUsed then c.lastUsed[e] else 0 }

  predicate ScoreLess(c: Experts, a: int, b: int) {
    Base(c, a) < Base(c, b) || (Base(c, a) == Base(c, b) && Recency(c, a) < Recency(c, b))
  }

  ghost predicate IsVictim(c: Experts, v: int) {
    v in c.vram && forall e :: e in c.vram ==> !ScoreLess(c, e, v)
  }

  // ---- one call ----------------------------------------------------------

  /** The position of each predicted expert; a repeated one keeps its last position. */
  function Ranks(p: seq<int>): map<int, nat> {
    if p == [] then map[] else Ranks(p[..|p| - 1])[p[|p| - 1] := |p| - 1]
  }

  function SetLookahead(c: Experts, p: seq<int>): Experts { c.(rank := Ranks(p)) }

  function Evict(c: Experts, v: int, token: int): Experts {
    c.(vram := c.vram - {v}, ops := c.ops + [Evicted(v, token)])
  }

  function Full(c: Experts): bool { |c.vram| >= c.capacity && c.vram != {} }

  /** Evict `v` if the cache is full; an empty cache has nothing to evict. */
  function MakeRoom(c: Experts, v: int, token: int): Experts { if Full(c) then Evict(c, v, token) else c }

  ghost predicate RoomChoice(c: Experts, v: int) { Full(c) ==> IsVictim(c, v) }

  function Tick(c: Experts): Experts { c.(clock := c.clock + 1) }

  /** Add `e` to VRAM and count the load. */
  function Load(c: Experts, e: int): Experts {
    c.(vram := c.vram + {e}, loadCount := c.loadCount[e := Count(c.loadCount, e) + 1])
  }

  function Use(c: Experts, e: int, token: int): Experts { c.(lastUsed := c.lastUsed[e := token]) }

  function LogPrefetch(c: Experts, e: int, token: int): Experts {
    Use(c.(prefetchCount := c.prefetchCount[e := Count(c.prefetchCount, e) + 1]), e, token)
      .(ops := c.ops + [Prefetched(e, token)])
  }

  function Prefetch(c: Experts, e: int, token: int, v: int): Experts {
    var t := Tick(c);
    LogPrefetch(if e in t.vram then t else Load(MakeRoom(t, v, token), e), e, token)
  }

  /** One iteration of prefetch_delta's loop: the list was filtered beforehand, so nothing is checked here. */
  function DeltaOne(c: Experts, e: int, token: int, v: int): Experts {
    LogPrefetch(Load(MakeRoom(Tick(c), v, token), e), e, token)
  }

  function Missing(vram: set<int>, p: seq<int>): seq<int> {
    if p == [] then []
    else Missing(vram, p[..|p| - 1]) + if p[|p| - 1] in vram then [] else [p[|p| - 1]]
  }

  /** The state after loading the first `n` missing experts; `vs` are the victims. */
  function DeltaTo(c: Experts, missing: seq<int>, token: int, vs: seq<int>, n: nat): Experts
    requires n <= |missing| && n <= |vs|
  {
    if n == 0 then c else DeltaOne(DeltaTo(c, missing, token, vs, n - 1), missing[n - 1], token, vs[n - 1])
  }

  ghost predicate DeltaChoices(c: Experts, missing: seq<int>, token: int, vs: seq<int>, n: nat)
    requires n <= |missing| && n <= |vs|
  {
    forall i :: 0 <= i < n ==> RoomChoice(DeltaTo(c, missing, token, vs, i), vs[i])
  }

  lemma {:induction false} DeltaExtend(c: Experts, missing: seq<int>, token: int, vs: seq<int>, v: int, n: nat)
    requires n <= |missing| && n <= |vs|
    ensures DeltaTo(c, missing, token, vs + [v], n) == DeltaTo(c, missing, token, vs, n)
  {
    hide DeltaOne;
    if n > 0 { DeltaExtend(c, missing, token, vs, v, n - 1); }
  }

  function PrefetchDelta(c: Experts, p: seq<int>, token: int, vs: seq<int>): Experts
    requires |vs| >= |Missing(c.vram, p)|
  {
    DeltaTo(c, Missing(c.vram, p), token, vs, |Missing(c.vram, p)|)
  }

  function Request(c: Experts, e: int, token: int, v: int): (Experts, bool) {
    var t := Tick(c);
    if e in t.vram then (Use(t, e, token), true)
    else
      var l := Use(Load(MakeRoom(t, v, token), e), e, token);
      (l.(ops := l.ops + [FetchedOnMiss(e, token)]), false)
  }

  // ---- who is evicted first ------------------------------------------------------

  ghost predicate Distinct(p: seq<int>) { forall i, j :: 0 <= i < j < |p| ==> p[i] != p[j] }

  ghost function Set(p: seq<int>): set<int> { set e | e in p }

  lemma {:induction false} RanksOf(p: seq<int>)
    requires Distinct(p)
    ensures Ranks(p).Keys == Set(p)
    ensures forall i :: 0 <= i < |p| ==> Ranks(p)[p[i]] == i
  {
    if p != [] {
      var q := p[..|p| - 1];
      RanksOf(q);
      assert p == q + [p[|p| - 1]];
      assert p[|p| - 1] !in q;
    }
  }

  lemma {:induction false} SetSize(p: seq<int>)
    requires Distinct(p)
    ensures |Set(p)| == |p|
  {
    if p != [] {
      var q := p[..|p| - 1];
      SetSize(q);
      assert p == q + [p[|p| - 1]] && p[|p| - 1] !in q;
      assert Set(p) == Set(q) + {p[|p| - 1]};
    }
  }

  /** The predictions `c` ranks are `p`, and they all outrank unpredicted experts. */
  ghost predicate Ranked(c: Experts, p: seq<int>) {
    Distinct(p) && c.rank == Ranks(p) && |p| <= c.topK + 1
  }

  lemma PredictedBase(c: Experts, p: seq<int>, e: int)
    requires Ranked(c, p)
    ensures Base(c, e) >= 0 <==> e in p
    ensures e !in p ==> Base(c, e) == -1
  {
    RanksOf(p);
    if e in p {
      var i :| 0 <= i < |p| && p[i] == e;
      assert Ranks(p)[p[i]] == i;
    } else {
      assert e !in Set(p);
    }
  }

  /** The width condition is exact: all predictions outrank unpredicted experts iff |p| <= topK + 1. */
  lemma PredictedOutrankIff(c: Experts, p: seq<int>)
    requires Distinct(p) && c.rank == Ranks(p) && p != []
    ensures (forall e :: e in p ==> Base(c, e) > -1) <==> |p| <= c.topK + 1
  {
    if |p| <= c.topK + 1 {
      forall e | e in p ensures Base(c, e) > -1 { PredictedBase(c, p, e); }
    } else {
      RanksOf(p);
      var last := p[|p| - 1];
      assert last in Set(p) && Base(c, last) == c.topK - (|p| - 1);
    }
  }

  /** While an unpredicted expert is resident, the victim is unpredicted, and the least recent of those. */
  lemma UnpredictedFirst(c: Experts, p: seq<int>, v: int, u: int)
    requires Ranked(c, p) && IsVictim(c, v) && u in c.vram && u !in p
    ensures v !in p && Recency(c, v) <= Recency(c, u)
  {
    PredictedBase(c, p, v);
    PredictedBase(c, p, u);
    assert !ScoreLess(c, u, v);
  }

  /** Among predictions only, the lowest-ranked goes first. */
  lemma LowestRankFirst(c: Experts, p: seq<int>, v: int)
    requires Ranked(c, p) && IsVictim(c, v) && c.vram == Set(p) && p != []
    ensures v == p[|p| - 1]
  {
    RanksOf(p);
    var last := p[|p| - 1];
    assert last in Set(p) && v in p;
    var i :| 0 <= i < |p| && p[i] == v;
    assert Base(c, v) == c.topK - i && Base(c, last) == c.topK - (|p| - 1);
    assert !ScoreLess(c, last, v);
  }

  /** A request leaves its expert resident and used at this token, and no other expert's use time changed. */
  lemma RequestEffect(c: Experts, e: int, token: int, v: int, x: int)
    requires RoomChoice(c, v)
    ensures var d := Request(c, e, token, v).0;
            && e in d.vram && Recency(d, e) == token
            && (x != e ==> Recency(d, x) == Recency(c, x) && (x in d.vram ==> x in c.vram))
            && (x in c.vram && x !in d.vram ==> Full(c) && x == v && e !in c.vram)
  {
  }
}
