/**
 What the prefetcher tells its callers (dee.cpp/src/async_prefetcher.cpp): the ticket a
 prefetch answers, and the counters, in terms of the calls made.
 */
module Tickets {
  import opened Wrappers
  import opened Memory
  import opened ArenaSpec
  import opened CacheSpec
  import opened PrefetchSpec
  import opened StaleWeights

  // ---- one prefetch ------------------------------------------------------------------

  /**
   A prefetch answers a ticket exactly if the expert is resident afterwards, and then one
   copy has been queued for it; otherwise it answers the failure code and queues nothing.
   */
  lemma PrefetchAnswers(s: Prefetcher, k: Key, src: Option<seq<Byte>>, nbytes: SizeT, priority: Int32, vs: seq<Key>)
    requires Inv(s.cache)
    ensures var (t, id) := Prefetch(s, k, src, nbytes, priority, vs);
            && (id.Some? <==> k in t.cache.blocks)
            && (id.None? <==> t.queue == s.queue && t.index == s.index)
            && (id.Some? ==> |t.queue| == |s.queue| + 1 && t.queue[|s.queue|].key == k && t.nextId == s.nextId + 1
                             && id.value == s.nextId)
            && (id.None? ==> t.nextId == s.nextId)
  {
    hide Inv, Ensure, Pack;
    EnsureFrame(s.cache, k, nbytes, priority, vs);
    var (t, id) := Prefetch(s, k, src, nbytes, priority, vs);
    if id.Some? { assert t.queue != s.queue by { assert |t.queue| != |s.queue|; } }
  }

  /** What a call answers, if it is a prefetch that got a ticket. */
  function Ticket(s: Prefetcher, op: Op): Option<nat> {
    if op.PrefetchOp? then Prefetch(s, op.key, op.src, op.nbytes, op.priority, op.victims).1 else None
  }

  // ---- whole runs ----------------------------------------------------------

  /** Call `i` is a prefetch that leaves its expert resident: the copies that are issued. */
  predicate Issues(ss: seq<Prefetcher>, ops: seq<Op>, i: nat)
    requires i < |ops| && i + 1 < |ss|
  {
    ops[i].PrefetchOp? && ops[i].key in ss[i + 1].cache.blocks
  }

  /** How many copies the first `i` calls issued. */
  function IssuedBefore(ss: seq<Prefetcher>, ops: seq<Op>, i: nat): nat
    requires i <= |ops| && i < |ss|
  {
    if i == 0 then 0 else IssuedBefore(ss, ops, i - 1) + if Issues(ss, ops, i - 1) then 1 else 0
  }

  function WaitsBefore(ops: seq<Op>, i: nat): nat
    requires i <= |ops|
  {
    if i == 0 then 0 else WaitsBefore(ops, i - 1) + if ops[i - 1].WaitOp? then 1 else 0
  }

  /** A copy for `k` was issued among the first `i` calls, and no reset came after it. */
  predicate Staged(ss: seq<Prefetcher>, ops: seq<Op>, i: nat, k: Key)
    requires i <= |ops| && i < |ss|
  {
    i > 0 && !ops[i - 1].ResetOp? && ((Issues(ss, ops, i - 1) && ops[i - 1].key == k) || Staged(ss, ops, i - 1, k))
  }

  /** Waits for an expert nobody staged since the last reset. */
  function UnstagedWaits(ss: seq<Prefetcher>, ops: seq<Op>, i: nat): nat
    requires i <= |ops| && i < |ss|
  {
    if i == 0 then 0
    else
      UnstagedWaits(ss, ops, i - 1) +
      if ops[i - 1].WaitOp? && !Staged(ss, ops, i - 1, ops[i - 1].key) then 1 else 0
  }

  lemma StepTicket(s: Prefetcher, op: Op)
    requires Inv(s.cache)
    ensures var t := Step(s, op); var issues := op.PrefetchOp? && op.key in t.cache.blocks;
            && t.nextId == s.nextId + (if issues then 1 else 0)
            && t.stats.issued == s.stats.issued + (if issues then 1 else 0)
            && t.stats.waited == s.stats.waited + (if op.WaitOp? then 1 else 0)
            && Ticket(s, op) == (if issues then Some(s.nextId) else None)
  {
    hide Inv, Ensure, Pack, DrainMem, CacheStep;
    if op.PrefetchOp? { EnsureFrame(s.cache, op.key, op.nbytes, op.priority, op.victims); }
  }

  lemma StepFallbacks(s: Prefetcher, op: Op)
    requires IndexOk(s.queue, s.index)
    ensures Step(s, op).stats.fallbacks ==
            s.stats.fallbacks + if op.WaitOp? && Pack(op.key) !in s.index then 1 else 0
  {
    hide Ensure, Pack, DrainMem, CacheStep;
  }

  lemma StepStaged(s: Prefetcher, op: Op, k: Key)
    requires Inv(s.cache)
    ensures var t := Step(s, op);
            Pack(k) in t.index <==>
            !op.ResetOp? && (Pack(k) in s.index || (op.PrefetchOp? && op.key == k && k in t.cache.blocks))
  {
    if op.PrefetchOp? {
      if Pack(op.key) == Pack(k) { PackInjective(op.key, k); }
      hide Inv, Ensure, Pack;
      EnsureFrame(s.cache, op.key, op.nbytes, op.priority, op.victims);
    } else {
      hide Inv, Pack, DrainMem, CacheStep;
    }
  }

  lemma {:induction false} RunStaged(ss: seq<Prefetcher>, ops: seq<Op>, i: nat, k: Key)
    requires Run(ss, ops) && i < |ss| && Fresh(ss[0])
    ensures Pack(k) in ss[i].index <==> Staged(ss, ops, i, k)
  {
    hide Inv, QInv, Step, Possible, Pack;
    if i > 0 {
      RunStaged(ss, ops, i - 1, k);
      RunInv(ss, ops, i - 1);
      StepStaged(ss[i - 1], ops[i - 1], k);
    }
  }

  /**
   In every run from a fresh prefetcher, resets included: the next ticket and the issue
   counter are the number of copies issued so far, every wait is counted, and the fallback
   counter is the number of waits for experts not staged since the last reset.
   */
  lemma {:induction false} RunCounters(ss: seq<Prefetcher>, ops: seq<Op>, i: nat)
    requires Run(ss, ops) && i < |ss| && Fresh(ss[0])
    ensures ss[i].nextId == ss[i].stats.issued == IssuedBefore(ss, ops, i)
    ensures ss[i].stats.waited == WaitsBefore(ops, i)
    ensures ss[i].stats.fallbacks == UnstagedWaits(ss, ops, i)
  {
    if i > 0 {
      hide Inv, QInv, Step, Possible, Pack, Fresh, Staged, Direct;
      RunCounters(ss, ops, i - 1);
      RunInv(ss, ops, i - 1);
      ConsistentQueue(ss[i - 1], Direct(ss, ops, i - 1));
      StepTicket(ss[i - 1], ops[i - 1]);
      StepFallbacks(ss[i - 1], ops[i - 1]);
      if ops[i - 1].WaitOp? { RunStaged(ss, ops, i - 1, ops[i - 1].key); }
    }
  }

  /** Every prefetch that issues a copy answers the number of copies issued before it, and every other one fails. */
  lemma RunTickets(ss: seq<Prefetcher>, ops: seq<Op>, i: nat)
    requires Run(ss, ops) && i < |ops| && Fresh(ss[0])
    ensures Ticket(ss[i], ops[i]) == if Issues(ss, ops, i) then Some(IssuedBefore(ss, ops, i)) else None
  {
    hide Consistent, Step, Possible, Fresh, Ticket, Direct, IssuedBefore;
    RunCounters(ss, ops, i);
    RunInv(ss, ops, i);
    ConsistentCache(ss[i], Direct(ss, ops, i));
    StepTicket(ss[i], ops[i]);
  }

  lemma ConsistentCache(s: Prefetcher, direct: set<Key>)
    requires Consistent(s, direct)
    ensures Inv(s.cache)
  {
    hide Inv, QInv;
  }

  lemma {:induction false} IssuedGrows(ss: seq<Prefetcher>, ops: seq<Op>, i: nat, j: nat)
    requires i <= j <= |ops| && j < |ss|
    ensures IssuedBefore(ss, ops, i) <= IssuedBefore(ss, ops, j)
    decreases j
  {
    if i < j { IssuedGrows(ss, ops, i, j - 1); }
  }

  /** No two prefetches of a run get the same ticket, whatever is reset in between. */
  lemma TicketsDiffer(ss: seq<Prefetcher>, ops: seq<Op>, i: nat, j: nat)
    requires Run(ss, ops) && i < j < |ops| && Fresh(ss[0])
    requires Ticket(ss[i], ops[i]).Some? && Ticket(ss[j], ops[j]).Some?
    ensures Ticket(ss[i], ops[i]).value < Ticket(ss[j], ops[j]).value
  {
    hide Fresh, Ticket, Run;
    RunTickets(ss, ops, i);
    RunTickets(ss, ops, j);
    RunLength(ss, ops);
    IssuedGrows(ss, ops, i + 1, j);
  }

  lemma RunLength(ss: seq<Prefetcher>, ops: seq<Op>)
    requires Run(ss, ops)
    ensures |ss| == |ops| + 1
  {
    hide Possible, Step;
  }
}
