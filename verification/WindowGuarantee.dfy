/** What the look-ahead policy promises for a whole serving window (modal_step3_cache_manager.py). */
module WindowGuarantee {
  import opened Maps
  import opened LookAheadSpec

  // ---- making room while a prediction is missing ----------------------------------

  lemma UnpredictedResident(c: Experts, p: seq<int>, e: int) returns (u: int)
    requires Distinct(p) && |p| <= c.capacity && |c.vram| >= c.capacity
    requires e in p && e !in c.vram
    ensures u in c.vram && u !in p
  {
    SetSize(p);
    if c.vram <= Set(p) {
      SubsetSize(c.vram, Set(p) - {e});
      assert false;
    }
    u := Outside(c.vram, Set(p));
  }

  /** While some prediction is missing, making room evicts no prediction. */
  lemma RoomSparesPredicted(c: Experts, p: seq<int>, v: int, token: int, e: int, x: int)
    requires Ranked(c, p) && |p| <= c.capacity && RoomChoice(c, v)
    requires e in p && e !in c.vram && x in p && x in c.vram
    ensures x in MakeRoom(c, v, token).vram
  {
    if Full(c) {
      hide IsVictim, Ranks;
      var u := UnpredictedResident(c, p, e);
      UnpredictedFirst(c, p, v, u);
    }
  }

  // ---- delta prefetch ----------------------------------------------------------

  lemma {:induction false} MissingOf(vram: set<int>, p: seq<int>)
    ensures forall e :: e in Missing(vram, p) <==> e in p && e !in vram
    ensures Distinct(p) ==> Distinct(Missing(vram, p))
  {
    if p != [] {
      var q := p[..|p| - 1];
      MissingOf(vram, q);
      assert p == q + [p[|p| - 1]];
    }
  }

  lemma {:induction false} DeltaFrame(c: Experts, missing: seq<int>, token: int, vs: seq<int>, n: nat)
    requires n <= |missing| && n <= |vs|
    ensures var d := DeltaTo(c, missing, token, vs, n);
            d.rank == c.rank && d.topK == c.topK && d.capacity == c.capacity
    ensures forall e :: e in DeltaTo(c, missing, token, vs, n).vram ==> e in c.vram || e in missing[..n]
  {
    if n > 0 {
      DeltaFrame(c, missing, token, vs, n - 1);
      assert missing[..n] == missing[..n - 1] + [missing[n - 1]];
    }
  }

  /** One missing prediction is loaded and none is lost. */
  lemma DeltaOneKeeps(d: Experts, p: seq<int>, token: int, v: int, e: int, x: int)
    requires Ranked(d, p) && |p| <= d.capacity && RoomChoice(d, v)
    requires e in p && e !in d.vram && x in p && (x in d.vram || x == e)
    ensures x in DeltaOne(d, e, token, v).vram
  {
    hide IsVictim, Ranks, Distinct;
    if x != e { RoomSparesPredicted(d, p, v, token, e, x); }
  }

  lemma NextMissing(c: Experts, p: seq<int>, missing: seq<int>, token: int, vs: seq<int>, n: nat)
    requires Distinct(p) && missing == Missing(c.vram, p) && n < |missing| && n <= |vs|
    ensures missing[n] in p && missing[n] !in DeltaTo(c, missing, token, vs, n).vram
  {
    hide DeltaTo, Missing;
    MissingOf(c.vram, p);
    DeltaFrame(c, missing, token, vs, n);
    assert missing[n] in missing;
  }

  lemma {:induction false} DeltaLoads(c: Experts, p: seq<int>, missing: seq<int>, token: int, vs: seq<int>, n: nat,
                                      x: int)
    requires Ranked(c, p) && |p| <= c.capacity && missing == Missing(c.vram, p)
    requires n <= |missing| && n <= |vs| && DeltaChoices(c, missing, token, vs, n)
    requires x in p && (x in c.vram || x in missing[..n])
    ensures x in DeltaTo(c, missing, token, vs, n).vram
  {
    hide RoomChoice, Ranks, DeltaOne, Missing, Distinct;
    if n > 0 {
      var d, e := DeltaTo(c, missing, token, vs, n - 1), missing[n - 1];
      NextMissing(c, p, missing, token, vs, n - 1);
      DeltaFrame(c, missing, token, vs, n - 1);
      assert missing[..n] == missing[..n - 1] + [e];
      if x != e { DeltaLoads(c, p, missing, token, vs, n - 1, x); }
      DeltaOneKeeps(d, p, token, vs[n - 1], e, x);
    }
  }

  /** After set_lookahead_ranked(p) and prefetch_delta(p), all of p is resident. */
  lemma DeltaResident(c: Experts, p: seq<int>, token: int, vs: seq<int>)
    requires Ranked(c, p) && |p| <= c.capacity
    requires |vs| >= |Missing(c.vram, p)|
    requires DeltaChoices(c, Missing(c.vram, p), token, vs, |Missing(c.vram, p)|)
    ensures Set(p) <= PrefetchDelta(c, p, token, vs).vram
  {
    hide RoomChoice, Ranked, DeltaOne, DeltaTo;
    var missing := Missing(c.vram, p);
    MissingOf(c.vram, p);
    forall x | x in p ensures x in PrefetchDelta(c, p, token, vs).vram {
      assert missing[..|missing|] == missing;
      DeltaLoads(c, p, missing, token, vs, |missing|, x);
    }
  }

  // ---- the ranks a window guarantees ------------------------------------------------

  /** How many ranks of `p` are safe: all but what one load must be able to displace, and what outranks the rest. */
  function Reach(p: seq<int>, capacity: int, topK: int): (g: nat)
    ensures g <= |p|
  {
    var room := if capacity < 1 then 0 else capacity - 1;
    var width := if topK < -1 then 0 else topK + 1;
    var least := if room < width then room else width;
    if |p| < least then |p| else least
  }

  /** The safe ranks outrank every other expert, predicted or not. */
  lemma ReachOutranks(c: Experts, p: seq<int>, i: nat, u: int)
    requires Distinct(p) && c.rank == Ranks(p) && i < Reach(p, c.capacity, c.topK)
    requires u !in p[..Reach(p, c.capacity, c.topK)]
    ensures Base(c, u) < Base(c, p[i])
  {
    hide Ranks;
    RanksOf(p);
    var g := Reach(p, c.capacity, c.topK);
    assert p[i] in Set(p) && Base(c, p[i]) == c.topK - i;
    if u in p {
      var j :| 0 <= j < |p| && p[j] == u;
      assert u in Set(p) && Base(c, p[j]) == c.topK - j;
    } else {
      assert u !in Set(p);
    }
  }

  lemma PrefixDistinct(p: seq<int>, n: nat)
    requires Distinct(p) && n <= |p|
    ensures Distinct(p[..n])
  {
  }

  /** A full cache holds an expert that is not safe. */
  lemma UnsafeResident(c: Experts, p: seq<int>) returns (u: int)
    requires Distinct(p) && Full(c)
    ensures u in c.vram && u !in p[..Reach(p, c.capacity, c.topK)]
  {
    var q := p[..Reach(p, c.capacity, c.topK)];
    PrefixDistinct(p, |q|);
    SetSize(q);
    if c.vram <= Set(q) {
      SubsetSize(c.vram, Set(q));
      assert false;
    }
    u := Outside(c.vram, Set(q));
  }

  /** Making room never evicts a safe rank. */
  lemma RoomKeepsReach(c: Experts, p: seq<int>, v: int, token: int, i: nat)
    requires Distinct(p) && c.rank == Ranks(p) && RoomChoice(c, v)
    requires i < Reach(p, c.capacity, c.topK) && p[i] in c.vram
    ensures p[i] in MakeRoom(c, v, token).vram
  {
    if Full(c) {
      hide Ranks, Reach, Distinct;
      var u := UnsafeResident(c, p);
      ReachOutranks(c, p, i, u);
      assert !ScoreLess(c, u, v);
    }
  }

  lemma TickChoice(c: Experts, v: int)
    requires RoomChoice(c, v)
    ensures RoomChoice(Tick(c), v)
  {
  }

  lemma DeltaOneKeepsReach(d: Experts, p: seq<int>, token: int, v: int, e: int, i: nat)
    requires Distinct(p) && d.rank == Ranks(p) && RoomChoice(d, v)
    requires i < Reach(p, d.capacity, d.topK) && (p[i] in d.vram || p[i] == e)
    ensures p[i] in DeltaOne(d, e, token, v).vram
  {
    hide Ranks, Reach, Distinct, IsVictim;
    if p[i] != e {
      TickChoice(d, v);
      RoomKeepsReach(Tick(d), p, v, token, i);
    }
  }

  /** Delta prefetch loads every safe rank that is missing and loses none, however many are predicted. */
  lemma {:induction false} DeltaKeepsReach(c: Experts, p: seq<int>, token: int, vs: seq<int>, missing: seq<int>,
                                           n: nat, i: nat)
    requires Distinct(p) && c.rank == Ranks(p)
    requires n <= |missing| && n <= |vs| && DeltaChoices(c, missing, token, vs, n)
    requires i < Reach(p, c.capacity, c.topK) && (p[i] in c.vram || p[i] in missing[..n])
    ensures p[i] in DeltaTo(c, missing, token, vs, n).vram
  {
    hide RoomChoice, Ranks, Reach, Distinct, DeltaOne;
    if n > 0 {
      var d, e := DeltaTo(c, missing, token, vs, n - 1), missing[n - 1];
      DeltaFrame(c, missing, token, vs, n - 1);
      assert missing[..n] == missing[..n - 1] + [e];
      if p[i] != e { DeltaKeepsReach(c, p, token, vs, missing, n - 1, i); }
      DeltaOneKeepsReach(d, p, token, vs[n - 1], e, i);
    }
  }

  // ---- serving requests ---------------------------------------------------------

  /** The ranking is that of p, and every safe rank is resident. */
  ghost predicate WindowOpen(c: Experts, p: seq<int>) {
    && Distinct(p) && c.rank == Ranks(p) && |c.vram| <= c.capacity
    && forall i :: 0 <= i < Reach(p, c.capacity, c.topK) ==> p[i] in c.vram
  }

  lemma RoomSize(c: Experts, v: int, token: int, e: int)
    requires |c.vram| <= c.capacity && c.capacity >= 1 && RoomChoice(c, v)
    ensures |MakeRoom(c, v, token).vram + {e}| <= c.capacity
  {
  }

  /** No request, for any expert, closes the window. */
  lemma RequestKeepsWindow(c: Experts, p: seq<int>, e: int, token: int, v: int)
    requires WindowOpen(c, p) && c.capacity >= 1 && RoomChoice(c, v)
    ensures WindowOpen(Request(c, e, token, v).0, p)
    ensures e in p[..Reach(p, c.capacity, c.topK)] ==> Request(c, e, token, v).1
  {
    hide IsVictim, Ranks, Distinct, Reach;
    var t := Tick(c);
    TickChoice(c, v);
    if e !in c.vram {
      RoomSize(t, v, token, e);
      forall i | 0 <= i < Reach(p, c.capacity, c.topK) ensures p[i] in MakeRoom(t, v, token).vram {
        RoomKeepsReach(t, p, v, token, i);
      }
    }
  }

  // ---- a whole window --------------------------------------------------------

  datatype Req = Req(id: int, token: int, victim: int)

  function ServeTo(c: Experts, reqs: seq<Req>): Experts {
    if reqs == [] then c
    else
      var n := |reqs| - 1;
      Request(ServeTo(c, reqs[..n]), reqs[n].id, reqs[n].token, reqs[n].victim).0
  }

  ghost predicate ServeChoices(c: Experts, reqs: seq<Req>) {
    forall i :: 0 <= i < |reqs| ==> RoomChoice(ServeTo(c, reqs[..i]), reqs[i].victim)
  }

  lemma ServeChoicesPrefix(c: Experts, reqs: seq<Req>)
    requires reqs != [] && ServeChoices(c, reqs)
    ensures ServeChoices(c, reqs[..|reqs| - 1])
    ensures RoomChoice(ServeTo(c, reqs[..|reqs| - 1]), reqs[|reqs| - 1].victim)
  {
    hide RoomChoice, ServeTo;
    var n := |reqs| - 1;
    forall i | 0 <= i < n ensures RoomChoice(ServeTo(c, reqs[..n][..i]), reqs[..n][i].victim) {
      assert reqs[..n][..i] == reqs[..i];
    }
  }

  lemma {:induction false} ServeKeepsWindow(c: Experts, p: seq<int>, reqs: seq<Req>)
    requires WindowOpen(c, p) && c.capacity >= 1 && ServeChoices(c, reqs)
    ensures WindowOpen(ServeTo(c, reqs), p)
    ensures ServeTo(c, reqs).capacity == c.capacity && ServeTo(c, reqs).topK == c.topK
  {
    hide WindowOpen, RoomChoice, ServeChoices;
    if reqs != [] {
      var n := |reqs| - 1;
      ServeChoicesPrefix(c, reqs);
      ServeKeepsWindow(c, p, reqs[..n]);
      RequestKeepsWindow(ServeTo(c, reqs[..n]), p, reqs[n].id, reqs[n].token, reqs[n].victim);
    }
  }

  lemma {:induction false} DeltaSize(c: Experts, missing: seq<int>, token: int, vs: seq<int>, n: nat)
    requires n <= |missing| && n <= |vs| && DeltaChoices(c, missing, token, vs, n)
    requires |c.vram| <= c.capacity && c.capacity >= 1
    ensures |DeltaTo(c, missing, token, vs, n).vram| <= c.capacity
  {
    hide RoomChoice, DeltaOne;
    if n > 0 {
      DeltaSize(c, missing, token, vs, n - 1);
      DeltaFrame(c, missing, token, vs, n - 1);
      DeltaOneSize(DeltaTo(c, missing, token, vs, n - 1), missing[n - 1], token, vs[n - 1]);
    }
  }

  lemma DeltaOneSize(d: Experts, e: int, token: int, v: int)
    requires |d.vram| <= d.capacity && d.capacity >= 1 && RoomChoice(d, v)
    ensures |DeltaOne(d, e, token, v).vram| <= d.capacity
  {
    hide IsVictim;
    TickChoice(d, v);
    hide RoomChoice;
    RoomSize(Tick(d), v, token, e);
  }

  /** `vs` are possible victims of predicting p and prefetching its delta. */
  ghost predicate OpeningChoices(c: Experts, p: seq<int>, token: int, vs: seq<int>) {
    var s := SetLookahead(c, p);
    |vs| >= |Missing(s.vram, p)| && DeltaChoices(s, Missing(s.vram, p), token, vs, |Missing(s.vram, p)|)
  }

  /** The cache once p is predicted and its delta prefetched. */
  function Opened(c: Experts, p: seq<int>, token: int, vs: seq<int>): Experts
    requires |vs| >= |Missing(c.vram, p)|
  {
    PrefetchDelta(SetLookahead(c, p), p, token, vs)
  }

  /** Predicting and delta-prefetching opens the window; a prediction that fits is then resident as a whole. */
  lemma WindowOpens(c: Experts, p: seq<int>, token: int, vs: seq<int>)
    requires Distinct(p) && |c.vram| <= c.capacity && c.capacity >= 1 && OpeningChoices(c, p, token, vs)
    ensures WindowOpen(Opened(c, p, token, vs), p)
    ensures Opened(c, p, token, vs).capacity == c.capacity && Opened(c, p, token, vs).topK == c.topK
    ensures |p| <= c.capacity && |p| <= c.topK + 1 ==> Set(p) <= Opened(c, p, token, vs).vram
  {
    hide RoomChoice, DeltaTo, DeltaChoices, Missing, Reach;
    var s := SetLookahead(c, p);
    var missing := Missing(s.vram, p);
    DeltaFrame(s, missing, token, vs, |missing|);
    DeltaSize(s, missing, token, vs, |missing|);
    MissingOf(s.vram, p);
    assert missing[..|missing|] == missing;
    forall i | 0 <= i < Reach(p, s.capacity, s.topK) ensures p[i] in Opened(c, p, token, vs).vram {
      assert p[i] in p;
      DeltaKeepsReach(s, p, token, vs, missing, |missing|, i);
    }
    if |p| <= c.capacity && |p| <= c.topK + 1 { DeltaResident(s, p, token, vs); }
  }

  /**
   The window guarantee. After predicting p and prefetching its delta, over any sequence of
   requests, the first min(|p|, capacity - 1, top_k_pred + 1) predictions are never absent,
   and every request for one of them is a hit. So none of p is lost if |p| < capacity and
   only the lowest-ranked can be if |p| = capacity, when at most top_k_pred + 1 are predicted.
   */
  lemma Guarantee(c: Experts, p: seq<int>, token: int, vs: seq<int>, reqs: seq<Req>, i: nat)
    requires Distinct(p) && |c.vram| <= c.capacity && c.capacity >= 1
    requires OpeningChoices(c, p, token, vs) && ServeChoices(Opened(c, p, token, vs), reqs)
    requires i < Reach(p, c.capacity, c.topK)
    ensures var w := ServeTo(Opened(c, p, token, vs), reqs);
            && p[i] in w.vram
            && forall t, v :: Request(w, p[i], t, v).1
  {
    hide RoomChoice, DeltaChoices, DeltaTo, ServeTo, ServeChoices, Reach;
    WindowOpens(c, p, token, vs);
    ServeKeepsWindow(Opened(c, p, token, vs), p, reqs);
  }
}
