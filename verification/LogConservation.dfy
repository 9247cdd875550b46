/** The operation log and the counters of the look-ahead cache account for every load (modal_step3_cache_manager.py). */
module LogConservation {
  import opened Maps
  import opened LookAheadSpec
  import opened WindowGuarantee

  function Replayed(resident: set<int>, op: LogOp): set<int> {
    if op.Evicted? then resident - {op.id} else resident + {op.id}
  }

  /** What is resident, according to the log alone. */
  function Replay(ops: seq<LogOp>): set<int> {
    if ops == [] then {} else Replayed(Replay(ops[..|ops| - 1]), ops[|ops| - 1])
  }

  function Evictions(ops: seq<LogOp>): nat {
    if ops == [] then 0 else Evictions(ops[..|ops| - 1]) + if ops[|ops| - 1].Evicted? then 1 else 0
  }

  lemma LogSnoc(ops: seq<LogOp>, op: LogOp)
    ensures Replay(ops + [op]) == Replayed(Replay(ops), op)
    ensures Evictions(ops + [op]) == Evictions(ops) + if op.Evicted? then 1 else 0
  {
    assert (ops + [op])[..|ops|] == ops;
  }

  function Limit(c: Experts): int { if c.capacity < 1 then 1 else c.capacity }

  /** Loads are resident or were evicted. */
  ghost predicate Conserved(c: Experts) { Sum(c.loadCount) == |c.vram| + Evictions(c.ops) }

  /**
   The log replays to the resident set, every load is resident, was evicted, or is one of
   `repeats` loads of an expert that was already resident, and the cache is within its capacity.
   */
  ghost predicate LogInv(c: Experts, repeats: nat) {
    && c.vram == Replay(c.ops) && |c.vram| <= Limit(c)
    && Sum(c.loadCount) == |c.vram| + Evictions(c.ops) + repeats
  }

  lemma RoomLog(c: Experts, v: int, token: int, repeats: nat)
    requires LogInv(c, repeats) && RoomChoice(c, v)
    ensures LogInv(MakeRoom(c, v, token), repeats) && |MakeRoom(c, v, token).vram| < Limit(c)
    ensures MakeRoom(c, v, token).vram <= c.vram && MakeRoom(c, v, token).capacity == c.capacity
  {
    hide Replay, Evictions, Sum;
    if Full(c) {
      assert v in c.vram;
      LogSnoc(c.ops, Evicted(v, token));
    }
  }

  /** Loading an expert, then logging it; a load of a resident expert is a repeat. */
  lemma LoadLog(c: Experts, d: Experts, e: int, op: LogOp, repeats: nat)
    requires LogInv(c, repeats) && |c.vram| < Limit(c)
    requires (op.Prefetched? || op.FetchedOnMiss?) && op.id == e
    requires d.capacity == c.capacity && d.vram == c.vram + {e} && d.ops == c.ops + [op]
    requires d.loadCount == c.loadCount[e := Count(c.loadCount, e) + 1]
    ensures LogInv(d, repeats + if e in c.vram then 1 else 0)
  {
    hide Replay, Evictions, Sum, Count;
    if e in c.vram { assert c.vram + {e} == c.vram; }
    LogSnoc(c.ops, op);
    SumBump(c.loadCount, e);
  }

  lemma TickLog(c: Experts, repeats: nat)
    requires LogInv(c, repeats)
    ensures LogInv(Tick(c), repeats)
  {
    hide Replay, Evictions, Sum;
  }

  lemma PrefetchLog(c: Experts, e: int, token: int, v: int, repeats: nat)
    requires LogInv(c, repeats) && RoomChoice(c, v)
    ensures LogInv(Prefetch(c, e, token, v), repeats)
  {
    hide Replay, Evictions, Sum, Count, RoomChoice, MakeRoom, Tick;
    var t := Tick(c);
    TickChoice(c, v);
    TickLog(c, repeats);
    if e in c.vram {
      HitLog(c, e, token, v, repeats);
    } else {
      TickSame(c);
      RoomLog(t, v, token, repeats);
      LoadLog(MakeRoom(t, v, token), Prefetch(c, e, token, v), e, Prefetched(e, token), repeats);
    }
  }

  lemma TickSame(c: Experts)
    ensures Tick(c).vram == c.vram && Tick(c).capacity == c.capacity
  {
  }

  lemma HitLog(c: Experts, e: int, token: int, v: int, repeats: nat)
    requires LogInv(c, repeats) && e in c.vram
    ensures LogInv(Prefetch(c, e, token, v), repeats)
  {
    hide Replay, Evictions, Sum, Count;
    LogSnoc(c.ops, Prefetched(e, token));
    assert c.vram + {e} == c.vram;
  }

  /** `prefetch` loads an expert exactly if it is not resident; a resident one is only counted and refreshed. */
  lemma PrefetchLoadsIff(c: Experts, e: int, token: int, v: int)
    ensures Prefetch(c, e, token, v).loadCount != c.loadCount <==> e !in c.vram
    ensures e in c.vram ==>
              var d := Prefetch(c, e, token, v);
              && d.vram == c.vram && d.loadCount == c.loadCount && d.rank == c.rank
              && Count(d.prefetchCount, e) == Count(c.prefetchCount, e) + 1 && Recency(d, e) == token
              && forall x :: x != e ==> Recency(d, x) == Recency(c, x)
  {
    if e !in c.vram {
      var d := Prefetch(c, e, token, v);
      assert Count(d.loadCount, e) == Count(c.loadCount, e) + 1;
    }
  }

  /** Prefetching expert 7 twice loads it once. */
  lemma PrefetchTwiceLoadsOnce()
    ensures var d := Prefetch(Prefetch(New(2, 0), 7, 0, 0), 7, 1, 0);
            Count(d.loadCount, 7) == 1 && Count(d.prefetchCount, 7) == 2
  {
    PrefetchLoadsIff(Prefetch(New(2, 0), 7, 0, 0), 7, 1, 0);
  }

  lemma RequestLog(c: Experts, e: int, token: int, v: int, repeats: nat)
    requires LogInv(c, repeats) && RoomChoice(c, v)
    ensures LogInv(Request(c, e, token, v).0, repeats)
  {
    hide Replay, Evictions, Sum, Count, IsVictim;
    var t := Tick(c);
    TickChoice(c, v);
    if e !in c.vram {
      RoomLog(t, v, token, repeats);
      LoadLog(MakeRoom(t, v, token), Request(c, e, token, v).0, e, FetchedOnMiss(e, token), repeats);
    }
  }

  /** prefetch_delta loads `e` once more, although it is resident once room has been made. */
  predicate Repeated(c: Experts, e: int, token: int, v: int) { e in MakeRoom(Tick(c), v, token).vram }

  lemma DeltaOneLog(c: Experts, e: int, token: int, v: int, repeats: nat)
    requires LogInv(c, repeats) && RoomChoice(c, v)
    ensures LogInv(DeltaOne(c, e, token, v), repeats + if Repeated(c, e, token, v) then 1 else 0)
  {
    hide Replay, Evictions, Sum, Count, IsVictim;
    var t := Tick(c);
    TickChoice(c, v);
    RoomLog(t, v, token, repeats);
    LoadLog(MakeRoom(t, v, token), DeltaOne(c, e, token, v), e, Prefetched(e, token), repeats);
  }

  /**
   prefetch_delta counts a load without checking residency again, so one iteration keeps
   loads conserved if and only if its expert is absent once room has been made.
   */
  lemma DeltaOneConservesIff(c: Experts, e: int, token: int, v: int)
    requires LogInv(c, 0) && RoomChoice(c, v)
    ensures Conserved(DeltaOne(c, e, token, v)) <==> !Repeated(c, e, token, v)
  {
    hide Replay, Evictions, Sum, RoomChoice, DeltaOne, Repeated;
    DeltaOneLog(c, e, token, v, 0);
  }

  /** A repeated prediction is counted twice: delta-prefetching [5, 5] into an empty cache reports two loads. */
  lemma RepeatedPredictionMiscounts()
    ensures var c := New(4, 4); Missing(c.vram, [5, 5]) == [5, 5]
    ensures !Conserved(DeltaTo(New(4, 4), [5, 5], 0, [0, 0], 2))
  {
    assert [5, 5][..1] == [5] && [5][..0] == [];
    assert Missing({}, []) == [] && Missing({}, [5]) == [5];
    var c := New(4, 4);
    var d := DeltaTo(c, [5, 5], 0, [0, 0], 1);
    assert d == DeltaOne(c, 5, 0, 0);
    DeltaOneLog(c, 5, 0, 0, 0);
    DeltaOneConservesIff(d, 5, 0, 0);
  }

  /** How many of the first `n` rounds of prefetch_delta load a resident expert. */
  function DeltaRepeats(c: Experts, missing: seq<int>, token: int, vs: seq<int>, n: nat): nat
    requires n <= |missing| && n <= |vs|
  {
    if n == 0 then 0
    else
      DeltaRepeats(c, missing, token, vs, n - 1) +
      if Repeated(DeltaTo(c, missing, token, vs, n - 1), missing[n - 1], token, vs[n - 1]) then 1 else 0
  }

  lemma {:induction false} DeltaLog(c: Experts, missing: seq<int>, token: int, vs: seq<int>, n: nat, repeats: nat)
    requires LogInv(c, repeats) && n <= |missing| && n <= |vs| && DeltaChoices(c, missing, token, vs, n)
    ensures LogInv(DeltaTo(c, missing, token, vs, n), repeats + DeltaRepeats(c, missing, token, vs, n))
  {
    hide LogInv, RoomChoice, DeltaOne, Repeated;
    if n > 0 {
      DeltaLog(c, missing, token, vs, n - 1, repeats);
      DeltaOneLog(DeltaTo(c, missing, token, vs, n - 1), missing[n - 1], token, vs[n - 1],
                  repeats + DeltaRepeats(c, missing, token, vs, n - 1));
    }
  }

  /** Distinct predictions are never loaded twice. */
  lemma {:induction false} DistinctNeverRepeats(c: Experts, p: seq<int>, token: int, vs: seq<int>, n: nat)
    requires Distinct(p) && n <= |Missing(c.vram, p)| && n <= |vs|
    ensures DeltaRepeats(c, Missing(c.vram, p), token, vs, n) == 0
  {
    hide DeltaTo, Missing, Distinct;
    if n > 0 {
      DistinctNeverRepeats(c, p, token, vs, n - 1);
      NextMissing(c, p, Missing(c.vram, p), token, vs, n - 1);
    }
  }

  // ---- whole runs ----------------------------------------------------------

  datatype Op =
    | LookaheadOp(predicted: seq<int>)
    | PrefetchOp(id: int, token: int, victim: int)
    | DeltaOp(predicted: seq<int>, token: int, victims: seq<int>)
    | RequestOp(id: int, token: int, victim: int)

  ghost predicate Possible(c: Experts, op: Op) {
    match op
    case LookaheadOp(_) => true
    case PrefetchOp(_, _, v) => RoomChoice(c, v)
    case RequestOp(_, _, v) => RoomChoice(c, v)
    case DeltaOp(p, token, vs) =>
      && |vs| == |Missing(c.vram, p)|
      && DeltaChoices(c, Missing(c.vram, p), token, vs, |vs|)
  }

  function Step(c: Experts, op: Op): Experts
    requires op.DeltaOp? ==> |op.victims| == |Missing(c.vram, op.predicted)|
  {
    match op
    case LookaheadOp(p) => SetLookahead(c, p)
    case PrefetchOp(e, token, v) => Prefetch(c, e, token, v)
    case RequestOp(e, token, v) => Request(c, e, token, v).0
    case DeltaOp(p, token, vs) => PrefetchDelta(c, p, token, vs)
  }

  ghost predicate Run(cs: seq<Experts>, ops: seq<Op>) {
    && |cs| == |ops| + 1
    && forall i :: 0 <= i < |ops| ==> Possible(cs[i], ops[i]) && cs[i + 1] == Step(cs[i], ops[i])
  }

  /** The loads of resident experts in one call. */
  function StepRepeats(c: Experts, op: Op): nat
    requires op.DeltaOp? ==> |op.victims| == |Missing(c.vram, op.predicted)|
  {
    if op.DeltaOp? then DeltaRepeats(c, Missing(c.vram, op.predicted), op.token, op.victims, |op.victims|) else 0
  }

  /** ... and in the first `i` calls of a run. */
  ghost function Repeats(cs: seq<Experts>, ops: seq<Op>, i: nat): nat
    requires Run(cs, ops) && i < |cs|
  {
    if i == 0 then 0
    else
      assert Possible(cs[i - 1], ops[i - 1]);
      Repeats(cs, ops, i - 1) + StepRepeats(cs[i - 1], ops[i - 1])
  }

  lemma LookaheadLog(c: Experts, p: seq<int>, repeats: nat)
    requires LogInv(c, repeats)
    ensures LogInv(SetLookahead(c, p), repeats)
  {
    hide Replay, Evictions, Sum;
  }

  lemma StepLog(c: Experts, op: Op, repeats: nat)
    requires LogInv(c, repeats) && Possible(c, op)
    ensures LogInv(Step(c, op), repeats + StepRepeats(c, op))
  {
    hide LogInv, RoomChoice, Prefetch, Request, DeltaTo, DeltaChoices, Missing, DeltaRepeats, Ranks;
    match op
    case LookaheadOp(p) => LookaheadLog(c, p, repeats);
    case PrefetchOp(e, token, v) => PrefetchLog(c, e, token, v, repeats);
    case RequestOp(e, token, v) => RequestLog(c, e, token, v, repeats);
    case DeltaOp(p, token, vs) => DeltaLog(c, Missing(c.vram, p), token, vs, |vs|, repeats);
  }

  /**
   In every run, whatever is predicted: at most max(1, capacity) experts are resident, the
   log replays to them, and loads = resident + evicted + repeated.
   */
  lemma {:induction false} RunLog(cs: seq<Experts>, ops: seq<Op>, i: nat)
    requires Run(cs, ops) && i < |cs| && cs[0] == New(cs[0].capacity, cs[0].topK)
    ensures LogInv(cs[i], Repeats(cs, ops, i))
  {
    if i > 0 {
      hide LogInv, Possible, Step, StepRepeats;
      RunLog(cs, ops, i - 1);
      StepLog(cs[i - 1], ops[i - 1], Repeats(cs, ops, i - 1));
    }
  }

  /** With distinct predictions there are no repeats: loads = resident + evicted. */
  lemma {:induction false} RunConserved(cs: seq<Experts>, ops: seq<Op>, i: nat)
    requires Run(cs, ops) && i < |cs| && cs[0] == New(cs[0].capacity, cs[0].topK)
    requires forall j :: 0 <= j < |ops| && ops[j].DeltaOp? ==> Distinct(ops[j].predicted)
    ensures Repeats(cs, ops, i) == 0 && Conserved(cs[i])
  {
    RunLog(cs, ops, i);
    if i > 0 {
      hide LogInv, Step, Conserved, DeltaChoices, RoomChoice, Missing, DeltaRepeats;
      RunConserved(cs, ops, i - 1);
      var op := ops[i - 1];
      assert Possible(cs[i - 1], op);
      if op.DeltaOp? { DistinctNeverRepeats(cs[i - 1], op.predicted, op.token, op.victims, |op.victims|); }
    }
    ConservedNow(cs[i], Repeats(cs, ops, i));
  }

  lemma ConservedNow(c: Experts, repeats: nat)
    requires LogInv(c, repeats)
    ensures Conserved(c) <==> repeats == 0
  {
    hide Replay, Evictions, Sum;
  }
}
