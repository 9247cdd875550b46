/** The window guarantee is exact: no further rank is safe (modal_step3_cache_manager.py). */
module WindowLimits {
  import opened Maps
  import opened LookAheadSpec
  import opened WindowGuarantee

  // ---- a run exists ------------------------------------------------------------

  /** Some expert of a non-empty set has a lowest score. */
  lemma {:induction false} SomeLowest(c: Experts, s: set<int>) returns (v: int)
    requires s != {}
    ensures v in s && forall e :: e in s ==> !ScoreLess(c, e, v)
    decreases |s|
  {
    var u := Outside(s, {});
    v := u;
    if s != {u} {
      var w := SomeLowest(c, s - {u});
      if !ScoreLess(c, u, w) { v := w; }
      forall e | e in s ensures !ScoreLess(c, e, v) {
        if e != u { assert e in s - {u}; }
      }
    }
  }

  lemma SomeVictim(c: Experts) returns (v: int)
    ensures RoomChoice(c, v)
  {
    v := 0;
    if Full(c) { v := SomeLowest(c, c.vram); }
  }

  lemma {:induction false} SomeDelta(c: Experts, missing: seq<int>, token: int, n: nat) returns (vs: seq<int>)
    requires n <= |missing|
    ensures |vs| == n && DeltaChoices(c, missing, token, vs, n)
  {
    hide RoomChoice, DeltaOne;
    vs := [];
    if n > 0 {
      var us := SomeDelta(c, missing, token, n - 1);
      var v := SomeVictim(DeltaTo(c, missing, token, us, n - 1));
      vs := us + [v];
      forall i | 0 <= i < n ensures RoomChoice(DeltaTo(c, missing, token, vs, i), vs[i]) {
        DeltaExtend(c, missing, token, us, v, i);
      }
    }
  }

  // ---- use times while opening ----------------------------------------------------

  /** Everything resident was used at token 0 or never, and comes from `p`. */
  ghost predicate Old(c: Experts, p: seq<int>) {
    (forall e :: Recency(c, e) == 0) && forall e :: e in c.vram ==> e in p
  }

  lemma DeltaOneOld(c: Experts, e: int, v: int, p: seq<int>)
    requires Old(c, p) && e in p
    ensures Old(DeltaOne(c, e, 0, v), p)
  {
    var d := DeltaOne(c, e, 0, v);
    assert d.lastUsed == c.lastUsed[e := 0] && d.vram <= c.vram + {e};
    forall x ensures Recency(d, x) == 0 { assert Recency(c, x) == 0; }
  }

  lemma {:induction false} DeltaOld(c: Experts, missing: seq<int>, vs: seq<int>, n: nat, p: seq<int>)
    requires Old(c, p) && n <= |missing| && n <= |vs| && forall i :: 0 <= i < |missing| ==> missing[i] in p
    ensures Old(DeltaTo(c, missing, 0, vs, n), p)
  {
    hide Old, DeltaOne;
    if n > 0 {
      DeltaOld(c, missing, vs, n - 1, p);
      DeltaOneOld(DeltaTo(c, missing, 0, vs, n - 1), missing[n - 1], vs[n - 1], p);
    }
  }

  lemma OpeningFromEmpty(p: seq<int>, capacity: int, topK: int) returns (vs: seq<int>)
    requires Distinct(p) && capacity >= 1
    ensures OpeningChoices(New(capacity, topK), p, 0, vs)
    ensures var w := Opened(New(capacity, topK), p, 0, vs);
            WindowOpen(w, p) && Old(w, p) && w.capacity == capacity && w.topK == topK
  {
    hide DeltaTo, DeltaChoices, Missing, Reach, Distinct;
    var c := New(capacity, topK);
    var s := SetLookahead(c, p);
    var missing := Missing(s.vram, p);
    vs := SomeDelta(s, missing, 0, |missing|);
    WindowOpens(c, p, 0, vs);
    MissingOf(s.vram, p);
    forall i | 0 <= i < |missing| ensures missing[i] in p { assert missing[i] in missing; }
    DeltaOld(s, missing, vs, |missing|, p);
  }

  lemma Above(p: seq<int>) returns (b: int)
    ensures forall e :: e in p ==> e < b
  {
    b := 0;
    for i := 0 to |p|
      invariant forall j :: 0 <= j < i ==> p[j] < b
    {
      if p[i] >= b { b := p[i] + 1; }
    }
  }

  // ---- ranks that one load must be able to displace ---------------------------------

  /** With all other entries held by safe ranks, one request for a new expert leaves no room for rank i. */
  lemma OneRequestDisplaces(w: Experts, p: seq<int>, i: nat, u: int, v: int)
    requires WindowOpen(w, p) && w.capacity >= 1 && RoomChoice(w, v) && u !in p && u !in w.vram
    requires i < |p| && Reach(p, w.capacity, w.topK) == w.capacity - 1 <= i
    ensures p[i] !in Request(w, u, 1, v).0.vram
  {
    RequestKeepsWindow(w, p, u, 1, v);
    var d := Request(w, u, 1, v).0;
    var q := p[..w.capacity - 1];
    assert u in d.vram && WindowOpen(d, p);
    hide RoomChoice, Reach, Request, Ranks;
    PrefixDistinct(p, |q|);
    SetSize(q);
    assert p[i] !in q;
    if p[i] in d.vram {
      forall e | e in Set(q) ensures e in d.vram {}
      assert Set(q) + {u, p[i]} <= d.vram;
      SubsetSize(Set(q) + {u, p[i]}, d.vram);
    }
  }

  // ---- ranks that do not outrank the unpredicted ------------------------------------

  /** After `n` requests for new experts b, b + 1, ...: while `x` is resident, so are all of them. */
  ghost predicate Crowded(d: Experts, p: seq<int>, x: int, b: int, n: nat) {
    && d.rank == Ranks(p) && |d.vram| <= d.capacity && Recency(d, x) == 0
    && (forall e :: e in d.vram ==> e < b + n)
    && (x in d.vram ==> forall e :: b <= e < b + n ==> e in d.vram && Recency(d, e) >= 1)
  }

  lemma NewScoresMore(d: Experts, p: seq<int>, i: nat, e: int)
    requires Distinct(p) && d.rank == Ranks(p) && d.topK + 1 <= i < |p|
    requires Recency(d, p[i]) == 0 && e !in p && Recency(d, e) >= 1
    ensures ScoreLess(d, p[i], e)
  {
    hide Ranks;
    RanksOf(p);
    assert p[i] in Set(p) && e !in Set(p);
  }

  lemma RequestFrame(d: Experts, e: int, token: int, v: int)
    requires |d.vram| <= d.capacity && d.capacity >= 1 && RoomChoice(d, v)
    ensures var r := Request(d, e, token, v).0;
            && r.rank == d.rank && r.capacity == d.capacity && r.topK == d.topK && |r.vram| <= r.capacity
            && r.vram <= d.vram + {e}
  {
    hide IsVictim, Full;
    TickChoice(d, v);
    hide RoomChoice;
    RoomSize(Tick(d), v, token, e);
    if e in d.vram { assert d.vram + {e} == d.vram; }
  }

  lemma NewStays(d: Experts, p: seq<int>, i: nat, e: int, u: int, v: int)
    requires Distinct(p) && d.rank == Ranks(p) && d.topK + 1 <= i < |p| && p[i] in d.vram
    requires RoomChoice(d, v) && Recency(d, p[i]) == 0 && e !in p && e in d.vram && Recency(d, e) >= 1
    ensures e in Request(d, u, 1, v).0.vram
  {
    NewScoresMore(d, p, i, e);
    RequestEffect(d, u, 1, v, e);
  }

  lemma CrowdMore(d: Experts, p: seq<int>, i: nat, b: int, n: nat, v: int)
    requires Distinct(p) && d.topK + 1 <= i < |p| && Crowded(d, p, p[i], b, n) && d.capacity >= 1
    requires RoomChoice(d, v) && forall e :: e in p ==> e < b
    ensures Crowded(Request(d, b + n, 1, v).0, p, p[i], b, n + 1)
  {
    hide Ranks, Distinct, RoomChoice, Request, Recency;
    var r := Request(d, b + n, 1, v).0;
    assert p[i] in p;
    RequestFrame(d, b + n, 1, v);
    RequestEffect(d, b + n, 1, v, p[i]);
    if p[i] in r.vram {
      forall e | b <= e < b + n + 1 ensures e in r.vram && Recency(r, e) >= 1 {
        RequestEffect(d, b + n, 1, v, e);
        if e < b + n { NewStays(d, p, i, e, b + n, v); }
      }
    }
  }

  lemma ServeSnoc(c: Experts, reqs: seq<Req>, r: Req)
    requires ServeChoices(c, reqs) && RoomChoice(ServeTo(c, reqs), r.victim)
    ensures ServeChoices(c, reqs + [r])
    ensures ServeTo(c, reqs + [r]) == Request(ServeTo(c, reqs), r.id, r.token, r.victim).0
  {
    hide RoomChoice, Request;
    assert (reqs + [r])[..|reqs|] == reqs;
    forall i | 0 <= i < |reqs| + 1 ensures RoomChoice(ServeTo(c, (reqs + [r])[..i]), (reqs + [r])[i].victim) {
      if i < |reqs| { assert (reqs + [r])[..i] == reqs[..i]; }
    }
  }

  lemma {:induction false} CrowdOut(w: Experts, p: seq<int>, i: nat, b: int, n: nat) returns (reqs: seq<Req>)
    requires WindowOpen(w, p) && Old(w, p) && w.capacity >= 1 && w.topK + 1 <= i < |p|
    requires forall e :: e in p ==> e < b
    ensures ServeChoices(w, reqs) && Crowded(ServeTo(w, reqs), p, p[i], b, n)
    ensures ServeTo(w, reqs).topK == w.topK && ServeTo(w, reqs).capacity == w.capacity
  {
    hide WindowOpen, Old, RoomChoice, ServeTo, ServeChoices, Crowded, Request;
    reqs := [];
    ServeNone(w);
    if n == 0 {
      CrowdStart(w, p, i, b);
    } else {
      reqs := CrowdOut(w, p, i, b, n - 1);
      var d := ServeTo(w, reqs);
      var v := SomeVictim(d);
      OpenDistinct(w, p);
      CrowdFrame(d, b + (n - 1), v, p, p[i], b, n - 1);
      CrowdMore(d, p, i, b, n - 1, v);
      ServeSnoc(w, reqs, Req(b + (n - 1), 1, v));
      reqs := reqs + [Req(b + (n - 1), 1, v)];
    }
  }

  lemma CrowdStart(w: Experts, p: seq<int>, i: nat, b: int)
    requires WindowOpen(w, p) && Old(w, p) && i < |p| && forall e :: e in p ==> e < b
    ensures Crowded(w, p, p[i], b, 0)
  {
    hide Ranks, Reach;
  }

  lemma CrowdFrame(d: Experts, e: int, v: int, p: seq<int>, x: int, b: int, n: nat)
    requires Crowded(d, p, x, b, n) && d.capacity >= 1 && RoomChoice(d, v)
    ensures Request(d, e, 1, v).0.capacity == d.capacity && Request(d, e, 1, v).0.topK == d.topK
  {
    hide RoomChoice, Request, Ranks;
    RequestFrame(d, e, 1, v);
  }

  lemma OpenDistinct(w: Experts, p: seq<int>)
    requires WindowOpen(w, p)
    ensures Distinct(p)
  {
  }

  lemma CrowdedOut(d: Experts, p: seq<int>, x: int, b: int, n: nat)
    requires Crowded(d, p, x, b, n) && n >= d.capacity && x < b
    ensures x !in d.vram
  {
    hide Ranks;
    if x in d.vram {
      CrowdSpan(b, n);
      forall e | e in Crowd(b, n) ensures e in d.vram {}
      SubsetSize(Crowd(b, n) + {x}, d.vram);
    }
  }

  ghost function Crowd(b: int, n: nat): set<int> { if n == 0 then {} else Crowd(b, n - 1) + {b + (n - 1)} }

  lemma {:induction false} CrowdSpan(b: int, n: nat)
    ensures |Crowd(b, n)| == n && forall e :: e in Crowd(b, n) <==> b <= e < b + n
  {
    if n > 0 { CrowdSpan(b, n - 1); }
  }

  // ---- the exact guarantee ----------------------------------------------------------

  /** A window: p predicted at `token`, its delta prefetched, then the requests. */
  ghost predicate WindowRun(c: Experts, p: seq<int>, token: int, vs: seq<int>, reqs: seq<Req>) {
    && |c.vram| <= c.capacity && OpeningChoices(c, p, token, vs)
    && ServeChoices(Opened(c, p, token, vs), reqs)
  }

  /** In every window of p, rank i is resident at the end. */
  ghost predicate AlwaysResident(p: seq<int>, capacity: int, topK: int, i: nat)
    requires i < |p|
  {
    forall c, token, vs, reqs :: WindowRun(c, p, token, vs, reqs) && c.capacity == capacity && c.topK == topK ==>
      p[i] in ServeTo(Opened(c, p, token, vs), reqs).vram
  }

  lemma LosesDisplaced(p: seq<int>, capacity: int, topK: int, i: nat)
    requires Distinct(p) && capacity >= 1 && i < |p| && Reach(p, capacity, topK) == capacity - 1 <= i
    ensures !AlwaysResident(p, capacity, topK, i)
  {
    hide OpeningChoices, Opened, Reach, Old, RoomChoice;
    var vs := OpeningFromEmpty(p, capacity, topK);
    var c := New(capacity, topK);
    assert |vs| >= |Missing(c.vram, p)| by { OpeningWide(c, p, 0, vs); }
    var w := Opened(c, p, 0, vs);
    var v := SomeVictim(w);
    var u := Above(p);
    OldAbove(w, p, u);
    hide WindowOpen, ServeTo, ServeChoices;
    OneRequestDisplaces(w, p, i, u, v);
    ServeNone(w);
    ServeSnoc(w, [], Req(u, 1, v));
    assert WindowRun(c, p, 0, vs, [] + [Req(u, 1, v)]);
  }

  lemma ServeNone(w: Experts)
    ensures ServeChoices(w, []) && ServeTo(w, []) == w
  {
  }

  lemma OpeningWide(c: Experts, p: seq<int>, token: int, vs: seq<int>)
    requires OpeningChoices(c, p, token, vs)
    ensures |vs| >= |Missing(c.vram, p)|
  {
  }

  lemma OldAbove(w: Experts, p: seq<int>, u: int)
    requires Old(w, p) && forall e :: e in p ==> e < u
    ensures u !in p && u !in w.vram
  {
  }

  lemma LosesOutranked(p: seq<int>, capacity: int, topK: int, i: nat)
    requires Distinct(p) && capacity >= 1 && topK + 1 <= i < |p|
    ensures !AlwaysResident(p, capacity, topK, i)
  {
    hide OpeningChoices, Opened, Reach, Old, WindowOpen, ServeChoices, ServeTo, Crowded;
    var vs := OpeningFromEmpty(p, capacity, topK);
    var c := New(capacity, topK);
    assert |vs| >= |Missing(c.vram, p)| by { OpeningWide(c, p, 0, vs); }
    var w := Opened(c, p, 0, vs);
    var b := Above(p);
    var reqs := CrowdOut(w, p, i, b, capacity);
    assert p[i] in p;
    CrowdedOut(ServeTo(w, reqs), p, p[i], b, capacity);
    assert WindowRun(c, p, 0, vs, reqs);
  }

  /**
   Exactly the first min(|p|, capacity - 1, top_k_pred + 1) predictions are resident at the
   end of every window: each later one is lost in some window that starts from an empty cache.
   */
  lemma GuaranteeIff(p: seq<int>, capacity: int, topK: int, i: nat)
    requires Distinct(p) && capacity >= 1 && i < |p|
    ensures AlwaysResident(p, capacity, topK, i) <==> i < Reach(p, capacity, topK)
  {
    if i < Reach(p, capacity, topK) {
      forall c, token, vs, reqs | WindowRun(c, p, token, vs, reqs) && c.capacity == capacity && c.topK == topK
        ensures p[i] in ServeTo(Opened(c, p, token, vs), reqs).vram
      {
        hide OpeningChoices, Opened, ServeTo, ServeChoices, Reach, Distinct;
        OpeningWide(c, p, token, vs);
        Guarantee(c, p, token, vs, reqs, i);
      }
    } else if topK + 1 <= i {
      LosesOutranked(p, capacity, topK, i);
    } else {
      LosesDisplaced(p, capacity, topK, i);
    }
  }

  // ---- one prediction too many --------------------------------------------------------

  /** Three experts prefetched, the first two predicted although top_k_pred is 0, then a fourth requested. */
  function TooWide(): Experts {
    SetLookahead(Prefetch(Prefetch(Prefetch(New(3, 0), 1, 0, 0), 2, 0, 0), 3, 5, 0), [1, 2])
  }

  lemma TooWideIs()
    ensures var c := TooWide();
            && c.vram == {1, 2, 3} && c.capacity == 3 && c.topK == 0 && c.rank == Ranks([1, 2])
            && c.lastUsed == map[1 := 0, 2 := 0, 3 := 5]
  {
    hide Ranks;
    var c1 := Prefetch(New(3, 0), 1, 0, 0);
    assert c1.vram == {1} && c1.lastUsed == map[1 := 0];
    var c2 := Prefetch(c1, 2, 0, 0);
    assert c2.vram == {1, 2} && c2.lastUsed == map[1 := 0, 2 := 0];
  }

  /** Expert 2 is predicted and the cache is larger than the prediction, yet the request evicts it. */
  lemma TooWideLosesPrediction()
    ensures var c := TooWide();
            && 1 in c.vram && 2 in c.vram && |c.vram| == c.capacity == 3 && RoomChoice(c, 2)
            && 2 !in Request(c, 4, 6, 2).0.vram && 3 in Request(c, 4, 6, 2).0.vram
  {
    hide TooWide;
    TooWideIs();
    RanksOf([1, 2]);
    var c := TooWide();
    assert Ranks([1, 2])[[1, 2][0]] == 0 && Ranks([1, 2])[[1, 2][1]] == 1;
    assert 3 !in Set([1, 2]);
    assert Base(c, 1) == 0 && Base(c, 2) == -1 && Base(c, 3) == -1;
    assert Recency(c, 2) == 0 && Recency(c, 3) == 5;
  }
}
