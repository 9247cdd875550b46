/** The mock prefetcher of dee.cpp/src/async_prefetcher.cpp with its queue and the arena bytes updated in place. */
module AsyncPrefetchers {
  import opened Wrappers
  import opened Memory
  import opened ArenaSpec
  import opened CacheSpec
  import opened VramCache
  import opened PrefetchSpec

  lemma DrainOne(q: seq<Transfer>, mem: seq<Byte>, i: nat)
    requires i < |q|
    ensures DrainQueue(q, i)[i] == q[i]
    ensures q[i].Ready() ==>
              && DrainQueue(q, i + 1) == DrainQueue(q, i)[i := q[i].(done := true)]
              && DrainMem(q, mem, i + 1) == Write(DrainMem(q, mem, i), q[i].dst, q[i].src.value)
    ensures !q[i].Ready() ==>
              && (q[i].done ==> q[i].src.Some?) ==> DrainQueue(q, i + 1) == DrainQueue(q, i)
    ensures !q[i].Ready() ==> DrainMem(q, mem, i + 1) == DrainMem(q, mem, i)
  {
    hide Write;
  }

  class AsyncPrefetcher {
    const cache: VramCacheManager
    var inflight: seq<Transfer>
    var keyToIdx: map<int, nat>
    var nextId: nat
    var stats: IssueStats

    ghost function State(): Prefetcher
      reads this, cache, cache.arena, cache.arena.base
    {
      Prefetcher(cache.State(), cache.arena.base[..], inflight, keyToIdx, nextId, stats)
    }

    constructor (manager: VramCacheManager)
      ensures cache == manager
      ensures State() == Start(manager.State(), manager.arena.base[..])
    {
      cache := manager;
      inflight, keyToIdx, nextId, stats := [], map[], 0, IssueStats(0, 0, 0);
    }

    /** Reserve the block now, queue the copy for later. */
    method Prefetch(k: Key, src: Option<seq<Byte>>, nbytes: SizeT, priority: Int32)
      returns (id: Option<nat>, ghost vs: seq<Key>)
      modifies this, cache, cache.arena
      ensures Choice(old(cache.State()), k, nbytes, vs)
      ensures (State(), id) == PrefetchSpec.Prefetch(old(State()), k, src, nbytes, priority, vs)
    {
      hide CacheSpec.Ensure, Choice;
      var ok;
      ok, vs := cache.Ensure(k, nbytes, priority);
      if !ok { return None, vs; }
      var dst := cache.Data(k);
      if dst.None? { return None, vs; }
      inflight := inflight + [Transfer(k, dst.value, src, nbytes, false)];
      keyToIdx := keyToIdx[Pack(k) := |inflight| - 1];
      id := Some(nextId);
      nextId := nextId + 1;
      stats := stats.(issued := stats.issued + 1);
    }

    /** Run the first `n` queued copies, in order, skipping those already done or without a source. */
    method DrainUntil(n: nat)
      requires n <= |inflight| && QueueOk(inflight, cache.arena.base.Length)
      modifies this`inflight, cache.arena.base
      ensures State() == DrainTo(old(State()), n)
    {
      hide Write;
      ghost var q, m := inflight, cache.arena.base[..];
      for i := 0 to n
        invariant inflight == DrainQueue(q, i)
        invariant cache.arena.base[..] == DrainMem(q, m, i)
      {
        DrainOne(q, m, i);
        var t := inflight[i];
        if !t.done && t.src.Some? {
          Copy(cache.arena.base, t.dst, t.src.value);
          inflight := inflight[i := t.(done := true)];
        }
      }
    }

    method Wait(k: Key) returns (ready: bool)
      requires QueueOk(inflight, cache.arena.base.Length) && IndexOk(inflight, keyToIdx)
      modifies this, cache.arena.base
      ensures (State(), ready) == PrefetchSpec.Wait(old(State()), k)
    {
      hide DrainMem, DrainQueue;
      stats := stats.(waited := stats.waited + 1);
      if Pack(k) !in keyToIdx {
        stats := stats.(fallbacks := stats.fallbacks + 1);
        return false;
      }
      var idx := keyToIdx[Pack(k)];
      DrainUntil(idx + 1);
      ready := inflight[idx].done;
    }

    method SynchronizeAll()
      requires QueueOk(inflight, cache.arena.base.Length)
      modifies this, cache.arena.base
      ensures State() == PrefetchSpec.SynchronizeAll(old(State()))
    {
      hide DrainMem, DrainQueue;
      DrainUntil(|inflight|);
    }

    method Reset()
      modifies this
      ensures State() == PrefetchSpec.Reset(old(State()))
    {
      inflight, keyToIdx := [], map[];
    }
  }
}
