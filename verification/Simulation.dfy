/** The replay loop of run_simulation (modal_step3_cache_manager.py): predict, prefetch the delta, serve, count. */
module Simulation {
  import opened LookAheadSpec
  import opened WindowGuarantee
  import opened LogTallies
  import opened LookAheads

  /** An expert asked for at a token. */
  datatype Demand = Demand(id: int, token: int)

  /** The window guarantees `id`: it is one of the safe ranks. */
  predicate Covered(p: seq<int>, capacity: int, topK: int, id: int) { id in p[..Reach(p, capacity, topK)] }

  function Uncovered(p: seq<int>, capacity: int, topK: int, ds: seq<Demand>): nat {
    if ds == [] then 0
    else Uncovered(p, capacity, topK, ds[..|ds| - 1]) + if Covered(p, capacity, topK, ds[|ds| - 1].id) then 0 else 1
  }

  function TotalUncovered(ps: seq<seq<int>>, capacity: int, topK: int, dss: seq<seq<Demand>>): nat
    requires |ps| == |dss|
  {
    if ps == [] then 0
    else
      var n := |ps| - 1;
      TotalUncovered(ps[..n], capacity, topK, dss[..n]) + Uncovered(ps[n], capacity, topK, dss[n])
  }

  function TotalDemand(dss: seq<seq<Demand>>): nat {
    if dss == [] then 0 else TotalDemand(dss[..|dss| - 1]) + |dss[|dss| - 1]|
  }

  /** The requests ask for the demanded experts at their tokens, in order. */
  ghost predicate Asks(reqs: seq<Req>, ds: seq<Demand>) {
    |reqs| == |ds| && forall i :: 0 <= i < |ds| ==> reqs[i].id == ds[i].id && reqs[i].token == ds[i].token
  }

  /**
   Serve the demands of one window. The misses are exactly the fetches the log gains, and each
   is of an expert the window does not guarantee.
   */
  method Serve(cache: ExpertCache, ghost p: seq<int>, ds: seq<Demand>)
    returns (hits: nat, misses: nat, ghost reqs: seq<Req>)
    requires cache.capacity >= 1 && WindowOpen(cache.State(), p)
    modifies cache
    ensures WindowOpen(cache.State(), p)
    ensures Asks(reqs, ds) && cache.State() == ServeTo(old(cache.State()), reqs)
    ensures hits + misses == |ds| && misses <= Uncovered(p, cache.capacity, cache.topK, ds)
    ensures Fetches(cache.State().ops) == Fetches(old(cache.State()).ops) + misses
  {
    hide WindowOpen, RoomChoice, Request, Fetches;
    hits, misses, reqs := 0, 0, [];
    for i := 0 to |ds|
      invariant WindowOpen(cache.State(), p)
      invariant Asks(reqs, ds[..i]) && cache.State() == ServeTo(old(cache.State()), reqs)
      invariant hits + misses == i && misses <= Uncovered(p, cache.capacity, cache.topK, ds[..i])
      invariant Fetches(cache.State().ops) == Fetches(old(cache.State()).ops) + misses
    {
      ghost var before := cache.State();
      ghost var v;
      var ok;
      ok, v := cache.RequestExpert(ds[i].id, ds[i].token);
      ServeOne(before, p, ds[i].id, ds[i].token, v);
      RequestFetches(before, ds[i].id, ds[i].token, v);
      assert ds[..i + 1][..i] == ds[..i];
      ghost var req := Req(ds[i].id, ds[i].token, v);
      assert (reqs + [req])[..|reqs|] == reqs;
      reqs := reqs + [req];
      if ok { hits := hits + 1; } else { misses := misses + 1; }
    }
    assert ds[..|ds|] == ds;
  }

  lemma ServeOne(c: Experts, p: seq<int>, e: int, token: int, v: int)
    requires WindowOpen(c, p) && c.capacity >= 1 && (RoomChoice(c, v) || e in c.vram)
    ensures WindowOpen(Request(c, e, token, v).0, p)
    ensures Covered(p, c.capacity, c.topK, e) ==> Request(c, e, token, v).1
  {
    if RoomChoice(c, v) {
      hide WindowOpen, RoomChoice, Request;
      RequestKeepsWindow(c, p, e, token, v);
    } else {
      hide RoomChoice, Ranked;
    }
  }

  lemma WindowBound(c: Experts, p: seq<int>)
    requires WindowOpen(c, p)
    ensures |c.vram| <= c.capacity
  {
  }

  /**
   The whole replay: every demand is a hit or a miss, the misses are exactly the fetches the
   log gains, and they are at most the demands the per-token windows do not guarantee.
   */
  method Replay(cache: ExpertCache, ps: seq<seq<int>>, dss: seq<seq<Demand>>) returns (hits: nat, misses: nat)
    requires |ps| == |dss| && cache.capacity >= 1 && |cache.vram| <= cache.capacity
    requires forall t :: 0 <= t < |ps| ==> Distinct(ps[t])
    modifies cache
    ensures hits + misses == TotalDemand(dss)
    ensures misses <= TotalUncovered(ps, cache.capacity, cache.topK, dss)
    ensures |cache.vram| <= cache.capacity
    ensures Fetches(cache.State().ops) == Fetches(old(cache.State()).ops) + misses
  {
    hide WindowOpen, DeltaChoices, DeltaTo, Covered, Fetches;
    hits, misses := 0, 0;
    for t := 0 to |ps|
      invariant |cache.vram| <= cache.capacity
      invariant hits + misses == TotalDemand(dss[..t])
      invariant Fetches(cache.State().ops) == Fetches(old(cache.State()).ops) + misses
      invariant misses <= TotalUncovered(ps[..t], cache.capacity, cache.topK, dss[..t])
    {
      ghost var before := cache.State();
      cache.SetLookaheadRanked(ps[t]);
      ghost var vs;
      var missing;
      missing, vs := cache.PrefetchDelta(ps[t], t);
      WindowOpens(before, ps[t], t, vs);
      DeltaFetches(SetLookahead(before, ps[t]), missing, t, vs, |missing|);
      ghost var reqs;
      var h, m;
      h, m, reqs := Serve(cache, ps[t], dss[t]);
      WindowBound(cache.State(), ps[t]);
      assert dss[..t + 1][..t] == dss[..t] && ps[..t + 1][..t] == ps[..t];
      hits, misses := hits + h, misses + m;
    }
    assert dss[..|dss|] == dss && ps[..|ps|] == ps;
  }
}
