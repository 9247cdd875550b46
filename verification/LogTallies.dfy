/**
 What each call of the look-ahead cache does, field by field, and what the counters say of
 each expert over whole runs (modal_step3_cache_manager.py).
 */
module LogTallies {
  import opened Maps
  import opened LookAheadSpec
  import opened WindowGuarantee
  import opened LogConservation

  // ---- one call ----------------------------------------------------------

  /** The log entry of an eviction, if one was needed. */
  function RoomLogged(c: Experts, v: int, token: int): seq<LogOp> { if Full(c) then [Evicted(v, token)] else [] }

  /** Exactly one load of `e` is counted, and none of anyone else. */
  ghost predicate LoadedOnce(c: Experts, d: Experts, e: int) {
    forall x :: Count(d.loadCount, x) == Count(c.loadCount, x) + if x == e then 1 else 0
  }

  ghost predicate PrefetchedOnce(c: Experts, d: Experts, e: int) {
    forall x :: Count(d.prefetchCount, x) == Count(c.prefetchCount, x) + if x == e then 1 else 0
  }

  /** `e` was used at `token`; everybody else when they were used before. */
  ghost predicate UsedNow(c: Experts, d: Experts, e: int, token: int) {
    forall x :: Recency(d, x) == if x == e then token else Recency(c, x)
  }

  lemma RoomDoes(c: Experts, v: int, token: int)
    ensures var r := MakeRoom(Tick(c), v, token);
            && r.vram == (if Full(c) then c.vram - {v} else c.vram) && r.ops == c.ops + RoomLogged(c, v, token)
            && r == c.(clock := c.clock + 1, vram := r.vram, ops := r.ops)
  {
  }

  lemma LoadDoes(c: Experts, e: int)
    ensures var d := Load(c, e);
            d == c.(vram := c.vram + {e}, loadCount := d.loadCount) && LoadedOnce(c, d, e)
  {
  }

  lemma LogPrefetchDoes(c: Experts, e: int, token: int)
    ensures var d := LogPrefetch(c, e, token);
            && d == c.(prefetchCount := d.prefetchCount, lastUsed := d.lastUsed, ops := c.ops + [Prefetched(e, token)])
            && UsedNow(c, d, e, token) && PrefetchedOnce(c, d, e)
  {
  }

  lemma UseDoes(c: Experts, e: int, token: int)
    ensures Use(c, e, token) == c.(lastUsed := Use(c, e, token).lastUsed) && UsedNow(c, Use(c, e, token), e, token)
  {
  }

  lemma UsedSame(a: Experts, b: Experts, c: Experts, d: Experts, e: int, token: int)
    requires UsedNow(a, b, e, token) && c.lastUsed == a.lastUsed && d.lastUsed == b.lastUsed
    ensures UsedNow(c, d, e, token)
  {
    forall x ensures Recency(d, x) == if x == e then token else Recency(c, x) { assert Recency(b, x) == Recency(d, x); }
  }

  /**
   A request answers true exactly for a resident expert, and then only refreshes it. A miss
   makes room, loads the expert, and logs the eviction and then the fetch.
   */
  lemma RequestAnswers(c: Experts, e: int, token: int, v: int)
    requires RoomChoice(c, v)
    ensures var (d, hit) := Request(c, e, token, v);
            && (hit <==> e in c.vram) && d.clock == c.clock + 1 && UsedNow(c, d, e, token)
            && d.rank == c.rank && d.capacity == c.capacity && d.topK == c.topK && d.prefetchCount == c.prefetchCount
            && (hit ==> d.vram == c.vram && d.ops == c.ops && d.loadCount == c.loadCount)
            && (!hit ==>
                && d.vram == (if Full(c) then c.vram - {v} else c.vram) + {e} && LoadedOnce(c, d, e)
                && d.ops == c.ops + RoomLogged(c, v, token) + [FetchedOnMiss(e, token)])
  {
    hide RoomChoice, MakeRoom, Load, Use, Count, Full, RoomLogged;
    var r := MakeRoom(Tick(c), v, token);
    RoomDoes(c, v, token);
    LoadDoes(r, e);
    UseDoes(Tick(c), e, token);
    UseDoes(Load(r, e), e, token);
    var d := Request(c, e, token, v).0;
    if e in c.vram {
      UsedSame(Tick(c), Use(Tick(c), e, token), c, d, e, token);
    } else {
      UsedSame(Load(r, e), Use(Load(r, e), e, token), c, d, e, token);
    }
  }

  /** A prefetch loads an absent expert, and in any case counts, refreshes and logs it. */
  lemma PrefetchDoes(c: Experts, e: int, token: int, v: int)
    requires RoomChoice(c, v)
    ensures var d := Prefetch(c, e, token, v);
            && d.clock == c.clock + 1 && UsedNow(c, d, e, token) && PrefetchedOnce(c, d, e)
            && d.rank == c.rank && d.capacity == c.capacity && d.topK == c.topK
            && (e in c.vram ==>
                d.vram == c.vram && d.loadCount == c.loadCount && d.ops == c.ops + [Prefetched(e, token)])
            && (e !in c.vram ==>
                && d.vram == (if Full(c) then c.vram - {v} else c.vram) + {e} && LoadedOnce(c, d, e)
                && d.ops == c.ops + RoomLogged(c, v, token) + [Prefetched(e, token)])
  {
    hide RoomChoice, MakeRoom, Load, LogPrefetch, Count, Full, RoomLogged;
    var r := MakeRoom(Tick(c), v, token);
    RoomDoes(c, v, token);
    LoadDoes(r, e);
    LogPrefetchDoes(Tick(c), e, token);
    LogPrefetchDoes(Load(r, e), e, token);
  }

  /** One round of a delta prefetch loads its expert without asking whether it is there. */
  lemma DeltaOneDoes(c: Experts, e: int, token: int, v: int)
    requires RoomChoice(c, v)
    ensures var d := DeltaOne(c, e, token, v);
            && d.clock == c.clock + 1 && UsedNow(c, d, e, token) && PrefetchedOnce(c, d, e) && LoadedOnce(c, d, e)
            && d.rank == c.rank && d.capacity == c.capacity && d.topK == c.topK
            && d.vram == (if Full(c) then c.vram - {v} else c.vram) + {e}
            && d.ops == c.ops + RoomLogged(c, v, token) + [Prefetched(e, token)]
  {
    hide RoomChoice, MakeRoom, Load, LogPrefetch, Count, Full, RoomLogged;
    var r := MakeRoom(Tick(c), v, token);
    RoomDoes(c, v, token);
    LoadDoes(r, e);
    LogPrefetchDoes(Load(r, e), e, token);
  }

  /** An eviction removes its victim, logs it under the token, and changes nothing else. */
  lemma EvictDoes(c: Experts, v: int, token: int)
    ensures var d := Evict(c, v, token);
            && d.vram == c.vram - {v} && d.ops == c.ops + [Evicted(v, token)]
            && d == c.(vram := d.vram, ops := d.ops)
  {
  }

  /** What is missing is taken in the order of the prediction. */
  lemma {:induction false} MissingInOrder(vram: set<int>, p: seq<int>, a: nat, b: nat)
    requires Distinct(p) && a < b < |Missing(vram, p)|
    ensures Missing(vram, p)[a] in Ranks(p) && Missing(vram, p)[b] in Ranks(p)
    ensures Ranks(p)[Missing(vram, p)[a]] < Ranks(p)[Missing(vram, p)[b]]
  {
    var q, e := p[..|p| - 1], p[|p| - 1];
    PrefixDistinct(p, |q|);
    MissingOf(vram, q);
    RanksOf(q);
    assert forall i :: 0 <= i < |q| ==> p[i] != e;
    var m := Missing(vram, q);
    assert forall i :: 0 <= i < |m| ==> m[i] in m && m[i] in q && m[i] != e;
    if b < |m| {
      MissingInOrder(vram, q, a, b);
    } else {
      assert m[a] in Set(q);
      RanksBelow(q, m[a]);
    }
  }

  lemma RanksBelow(p: seq<int>, e: int)
    requires Distinct(p) && e in p
    ensures e in Ranks(p) && Ranks(p)[e] < |p|
  {
    RanksOf(p);
    var i :| 0 <= i < |p| && p[i] == e;
    assert e in Set(p) && Ranks(p)[p[i]] == i;
  }

  // ---- whole runs, expert by expert ------------------------------------------------

  function TimesEvicted(ops: seq<LogOp>, x: int): nat {
    if ops == [] then 0
    else
      var op := ops[|ops| - 1];
      TimesEvicted(ops[..|ops| - 1], x) + if op.Evicted? && op.id == x then 1 else 0
  }

  function TimesPrefetched(ops: seq<LogOp>, x: int): nat {
    if ops == [] then 0
    else
      var op := ops[|ops| - 1];
      TimesPrefetched(ops[..|ops| - 1], x) + if op.Prefetched? && op.id == x then 1 else 0
  }

  /** Every load of `x` is the one it is resident by, was evicted, or is one of `repeats`; every prefetch is logged. */
  ghost predicate Tally(c: Experts, x: int, repeats: nat) {
    && Count(c.loadCount, x) == (if x in c.vram then 1 else 0) + TimesEvicted(c.ops, x) + repeats
    && Count(c.prefetchCount, x) == TimesPrefetched(c.ops, x)
  }

  lemma TimesSnoc(ops: seq<LogOp>, op: LogOp, x: int)
    ensures TimesEvicted(ops + [op], x) == TimesEvicted(ops, x) + if op.Evicted? && op.id == x then 1 else 0
    ensures TimesPrefetched(ops + [op], x) == TimesPrefetched(ops, x) + if op.Prefetched? && op.id == x then 1 else 0
  {
    assert (ops + [op])[..|ops|] == ops;
  }

  lemma RoomTimes(c: Experts, v: int, token: int, x: int)
    ensures var ops := c.ops + RoomLogged(c, v, token);
            && TimesEvicted(ops, x) == TimesEvicted(c.ops, x) + (if Full(c) && v == x then 1 else 0)
            && TimesPrefetched(ops, x) == TimesPrefetched(c.ops, x)
  {
    hide Full, TimesEvicted, TimesPrefetched;
    if Full(c) { TimesSnoc(c.ops, Evicted(v, token), x); } else { assert c.ops + [] == c.ops; }
  }

  lemma VictimIn(c: Experts, v: int)
    requires RoomChoice(c, v)
    ensures Full(c) ==> v in c.vram
  {
    hide Full;
  }

  lemma RequestTally(c: Experts, e: int, token: int, v: int, x: int, repeats: nat)
    requires Tally(c, x, repeats) && RoomChoice(c, v)
    ensures Tally(Request(c, e, token, v).0, x, repeats)
  {
    hide RoomChoice, Full, Request, Count, TimesEvicted, TimesPrefetched, RoomLogged;
    VictimIn(c, v);
    RequestAnswers(c, e, token, v);
    RoomTimes(c, v, token, x);
    TimesSnoc(c.ops + RoomLogged(c, v, token), FetchedOnMiss(e, token), x);
  }

  lemma PrefetchTally(c: Experts, e: int, token: int, v: int, x: int, repeats: nat)
    requires Tally(c, x, repeats) && RoomChoice(c, v)
    ensures Tally(Prefetch(c, e, token, v), x, repeats)
  {
    hide RoomChoice, Full, Prefetch, Count, TimesEvicted, TimesPrefetched, RoomLogged;
    VictimIn(c, v);
    PrefetchDoes(c, e, token, v);
    RoomTimes(c, v, token, x);
    TimesSnoc(c.ops, Prefetched(e, token), x);
    TimesSnoc(c.ops + RoomLogged(c, v, token), Prefetched(e, token), x);
  }

  /** A delta round for an expert that is resident once room has been made repeats its load. */
  lemma DeltaOneTally(c: Experts, e: int, token: int, v: int, x: int, repeats: nat)
    requires Tally(c, x, repeats) && RoomChoice(c, v)
    ensures Tally(DeltaOne(c, e, token, v), x, repeats + if x == e && Repeated(c, e, token, v) then 1 else 0)
  {
    hide RoomChoice, Full, DeltaOne, Count, TimesEvicted, TimesPrefetched, RoomLogged;
    VictimIn(c, v);
    DeltaOneDoes(c, e, token, v);
    RoomTimes(c, v, token, x);
    RepeatedIff(c, e, token, v);
    TimesSnoc(c.ops + RoomLogged(c, v, token), Prefetched(e, token), x);
  }

  lemma RepeatedIff(c: Experts, e: int, token: int, v: int)
    ensures Repeated(c, e, token, v) <==> e in (if Full(c) then c.vram - {v} else c.vram)
  {
  }

  /** The repeated loads of `x` in the first `n` rounds of a delta prefetch. */
  function RepeatsOf(c: Experts, missing: seq<int>, token: int, vs: seq<int>, n: nat, x: int): nat
    requires n <= |missing| && n <= |vs|
  {
    if n == 0 then 0
    else
      RepeatsOf(c, missing, token, vs, n - 1, x) +
      if missing[n - 1] == x && Repeated(DeltaTo(c, missing, token, vs, n - 1), x, token, vs[n - 1]) then 1 else 0
  }

  lemma {:induction false} DeltaTally(c: Experts, missing: seq<int>, token: int, vs: seq<int>, n: nat, x: int,
                                      repeats: nat)
    requires Tally(c, x, repeats) && n <= |missing| && n <= |vs| && DeltaChoices(c, missing, token, vs, n)
    ensures Tally(DeltaTo(c, missing, token, vs, n), x, repeats + RepeatsOf(c, missing, token, vs, n, x))
    ensures DeltaTo(c, missing, token, vs, n).clock == c.clock + n
  {
    hide Tally, RoomChoice, DeltaOne, Repeated;
    if n > 0 {
      var d := DeltaTo(c, missing, token, vs, n - 1);
      DeltaTally(c, missing, token, vs, n - 1, x, repeats);
      DeltaOneTally(d, missing[n - 1], token, vs[n - 1], x, repeats + RepeatsOf(c, missing, token, vs, n - 1, x));
      DeltaOneDoes(d, missing[n - 1], token, vs[n - 1]);
    }
  }

  /** The repeated loads of `x` in one call, and the ticks the call takes. */
  function CallRepeats(c: Experts, op: Op, x: int): nat
    requires op.DeltaOp? ==> |op.victims| == |Missing(c.vram, op.predicted)|
  {
    if op.DeltaOp? then RepeatsOf(c, Missing(c.vram, op.predicted), op.token, op.victims, |op.victims|, x) else 0
  }

  function CallTicks(c: Experts, op: Op): nat {
    match op
    case LookaheadOp(_) => 0
    case PrefetchOp(_, _, _) => 1
    case RequestOp(_, _, _) => 1
    case DeltaOp(p, _, _) => |Missing(c.vram, p)|
  }

  ghost function RunRepeats(cs: seq<Experts>, ops: seq<Op>, i: nat, x: int): nat
    requires Run(cs, ops) && i < |cs|
  {
    if i == 0 then 0
    else
      assert Possible(cs[i - 1], ops[i - 1]);
      RunRepeats(cs, ops, i - 1, x) + CallRepeats(cs[i - 1], ops[i - 1], x)
  }

  ghost function RunTicks(cs: seq<Experts>, ops: seq<Op>, i: nat): nat
    requires i <= |ops| && i < |cs|
  {
    if i == 0 then 0 else RunTicks(cs, ops, i - 1) + CallTicks(cs[i - 1], ops[i - 1])
  }

  lemma LookaheadTally(c: Experts, p: seq<int>, x: int, repeats: nat)
    requires Tally(c, x, repeats)
    ensures Tally(SetLookahead(c, p), x, repeats) && SetLookahead(c, p).clock == c.clock
  {
    hide Count, TimesEvicted, TimesPrefetched, Ranks;
  }

  lemma StepTally(c: Experts, op: Op, x: int, repeats: nat)
    requires Tally(c, x, repeats) && Possible(c, op)
    ensures Tally(Step(c, op), x, repeats + CallRepeats(c, op, x))
    ensures Step(c, op).clock == c.clock + CallTicks(c, op)
  {
    hide Tally, RoomChoice, Prefetch, Request, DeltaTo, DeltaChoices, Missing, RepeatsOf, SetLookahead;
    match op
    case LookaheadOp(p) => LookaheadTally(c, p, x, repeats);
    case PrefetchOp(e, token, v) =>
      PrefetchTally(c, e, token, v, x, repeats);
      PrefetchDoes(c, e, token, v);
    case RequestOp(e, token, v) =>
      RequestTally(c, e, token, v, x, repeats);
      RequestAnswers(c, e, token, v);
    case DeltaOp(p, token, vs) => DeltaTally(c, Missing(c.vram, p), token, vs, |vs|, x, repeats);
  }

  /**
   In every run, for every expert: its load count is the number of times it was evicted, plus
   one if it is resident, plus its repeated loads; its prefetch count is the number of its
   prefetch entries in the log; and the clock counts the calls, a delta prefetch once a round.
   */
  lemma {:induction false} RunTally(cs: seq<Experts>, ops: seq<Op>, i: nat, x: int)
    requires Run(cs, ops) && i < |cs| && cs[0] == New(cs[0].capacity, cs[0].topK)
    ensures Tally(cs[i], x, RunRepeats(cs, ops, i, x)) && cs[i].clock == RunTicks(cs, ops, i)
  {
    if i > 0 {
      hide Tally, Possible, Step, CallRepeats, CallTicks;
      RunTally(cs, ops, i - 1, x);
      StepTally(cs[i - 1], ops[i - 1], x, RunRepeats(cs, ops, i - 1, x));
    }
  }

  // ---- misses -------------------------------------------------------------------

  /** The misses the log shows. */
  function Fetches(ops: seq<LogOp>): nat {
    if ops == [] then 0 else Fetches(ops[..|ops| - 1]) + if ops[|ops| - 1].FetchedOnMiss? then 1 else 0
  }

  lemma FetchesSnoc(ops: seq<LogOp>, op: LogOp)
    ensures Fetches(ops + [op]) == Fetches(ops) + if op.FetchedOnMiss? then 1 else 0
  {
    assert (ops + [op])[..|ops|] == ops;
  }

  lemma RoomFetches(c: Experts, v: int, token: int)
    ensures Fetches(c.ops + RoomLogged(c, v, token)) == Fetches(c.ops)
  {
    hide Full, Fetches;
    if Full(c) { FetchesSnoc(c.ops, Evicted(v, token)); } else { assert c.ops + [] == c.ops; }
  }

  /** A request logs a fetch exactly if it answers false. */
  lemma RequestFetches(c: Experts, e: int, token: int, v: int)
    requires RoomChoice(c, v) || e in c.vram
    ensures var (d, hit) := Request(c, e, token, v);
            (hit <==> e in c.vram) && Fetches(d.ops) == Fetches(c.ops) + if hit then 0 else 1
  {
    if RoomChoice(c, v) {
      hide RoomChoice, Full, Request, Fetches, RoomLogged;
      RequestAnswers(c, e, token, v);
      RoomFetches(c, v, token);
      FetchesSnoc(c.ops + RoomLogged(c, v, token), FetchedOnMiss(e, token));
    }
  }

  lemma {:induction false} DeltaFetches(c: Experts, missing: seq<int>, token: int, vs: seq<int>, n: nat)
    requires n <= |missing| && n <= |vs| && DeltaChoices(c, missing, token, vs, n)
    ensures Fetches(DeltaTo(c, missing, token, vs, n).ops) == Fetches(c.ops)
  {
    hide RoomChoice, DeltaOne, Fetches, RoomLogged;
    if n > 0 {
      var d := DeltaTo(c, missing, token, vs, n - 1);
      DeltaFetches(c, missing, token, vs, n - 1);
      DeltaOneDoes(d, missing[n - 1], token, vs[n - 1]);
      RoomFetches(d, vs[n - 1], token);
      FetchesSnoc(d.ops + RoomLogged(d, vs[n - 1], token), Prefetched(missing[n - 1], token));
    }
  }
}
