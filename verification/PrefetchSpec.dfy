/**
 The mock path of dee.cpp/src/async_prefetcher.cpp on values: copies into the cache's
 arena are queued when issued and run lazily, in order, when compute waits.
 */
module PrefetchSpec {
  import opened Wrappers
  import opened Extents
  import opened Memory
  import opened ArenaSpec
  import opened CacheSpec

  /** A queued copy. A null source is queued too, and never runs. */
  datatype Transfer = Transfer(key: Key, dst: nat, src: Option<seq<Byte>>, nbytes: nat, done: bool) {
    function Range(): Extent { Extent(dst, nbytes) }

    predicate Ready() { !done && src.Some? }
  }

  datatype IssueStats = IssueStats(issued: nat, waited: nat, fallbacks: nat)

  datatype Prefetcher = Prefetcher(cache: Cache, mem: seq<Byte>, queue: seq<Transfer>,
                                   index: map<int, nat>, nextId: nat, stats: IssueStats)

  function Start(cache: Cache, mem: seq<Byte>): Prefetcher {
    Prefetcher(cache, mem, [], map[], 0, IssueStats(0, 0, 0))
  }

  // ---- the packed key ----------------------------------------------------------

  function Low32(x: Int32): nat { if x < 0 then x + 0x1_0000_0000 else x }

  /** Layer in the high 32 bits, expert in the low 32 bits. */
  function Pack(k: Key): nat { Low32(k.layer) * 0x1_0000_0000 + Low32(k.expert) }

  /** No two experts share an index entry, negative identifiers included. */
  lemma PackInjective(j: Key, k: Key)
    requires Pack(j) == Pack(k)
    ensures j == k
  {
  }

  // ---- one call ----------------------------------------------------------

  /** The queue after running its first `n` transfers. */
  function DrainQueue(q: seq<Transfer>, n: nat): (r: seq<Transfer>)
    ensures |r| == |q|
  {
    seq(|q|, i requires 0 <= i < |q| => if i < n && q[i].src.Some? then q[i].(done := true) else q[i])
  }

  /** The memory after running the first `n` transfers that are not done. */
  function DrainMem(q: seq<Transfer>, mem: seq<Byte>, n: nat): (r: seq<Byte>)
    requires n <= |q|
    ensures |r| == |mem|
  {
    if n == 0 then mem
    else
      var m := DrainMem(q, mem, n - 1);
      if q[n - 1].Ready() then Write(m, q[n - 1].dst, q[n - 1].src.value) else m
  }

  function DrainTo(s: Prefetcher, n: nat): Prefetcher
    requires n <= |s.queue|
  {
    s.(queue := DrainQueue(s.queue, n), mem := DrainMem(s.queue, s.mem, n))
  }

  function Enqueue(s: Prefetcher, t: Transfer): Prefetcher {
    s.(queue := s.queue + [t], index := s.index[Pack(t.key) := |s.queue|], nextId := s.nextId + 1,
       stats := s.stats.(issued := s.stats.issued + 1))
  }

  function Prefetch(s: Prefetcher, k: Key, src: Option<seq<Byte>>, nbytes: SizeT, priority: Int32,
                    vs: seq<Key>): (Prefetcher, Option<nat>)
  {
    var (c, ok) := Ensure(s.cache, k, nbytes, priority, vs);
    if !ok || k !in c.blocks then (s.(cache := c), None)
    else (Enqueue(s.(cache := c), Transfer(k, c.blocks[k].off, src, nbytes, false)), Some(s.nextId))
  }

  function Wait(s: Prefetcher, k: Key): (Prefetcher, bool) {
    var w := s.(stats := s.stats.(waited := s.stats.waited + 1));
    if Pack(k) !in s.index || s.index[Pack(k)] >= |s.queue| then
      (w.(stats := w.stats.(fallbacks := w.stats.fallbacks + 1)), false)
    else
      var d := DrainTo(w, s.index[Pack(k)] + 1);
      (d, d.queue[s.index[Pack(k)]].done)
  }

  function SynchronizeAll(s: Prefetcher): Prefetcher { DrainTo(s, |s.queue|) }

  function Reset(s: Prefetcher): Prefetcher { s.(queue := [], index := map[]) }

  // ---- what draining does to memory ------------------------------------------

  lemma {:induction false} DrainPrefix(q: seq<Transfer>, t: Transfer, mem: seq<Byte>, n: nat)
    requires n <= |q|
    ensures DrainMem(q + [t], mem, n) == DrainMem(q, mem, n)
  {
    hide Write;
    if n > 0 { DrainPrefix(q, t, mem, n - 1); }
  }

  /** Ranges that no pending copy touches keep their bytes. */
  lemma {:induction false} DrainKeeps(q: seq<Transfer>, mem: seq<Byte>, n: nat, off: nat, data: seq<Byte>)
    requires n <= |q| && Holds(mem, off, data)
    requires forall j :: 0 <= j < n && q[j].Ready() ==>
               |q[j].src.value| == q[j].nbytes && Disjoint(q[j].Range(), Extent(off, |data|))
    ensures Holds(DrainMem(q, mem, n), off, data)
  {
    hide Holds, Write;
    if n > 0 {
      DrainKeeps(q, mem, n - 1, off, data);
      if q[n - 1].Ready() {
        WriteElsewhere(DrainMem(q, mem, n - 1), q[n - 1].dst, q[n - 1].src.value, off, data);
      }
    }
  }

  /** The last copy into a range decides its bytes. */
  lemma {:induction false} DrainFills(q: seq<Transfer>, mem: seq<Byte>, n: nat, i: nat, size: nat)
    requires i < n <= |q| && q[i].Ready() && q[i].dst + |q[i].src.value| <= |mem|
    requires forall j :: i < j < n && q[j].Ready() ==>
               |q[j].src.value| == q[j].nbytes && Disjoint(q[j].Range(), Extent(q[i].dst, |Fit(q[i].src.value, size)|))
    ensures Holds(DrainMem(q, mem, n), q[i].dst, Fit(q[i].src.value, size))
  {
    hide Holds, Write, Fit;
    var data := q[i].src.value;
    if i == n - 1 {
      WriteHolds(DrainMem(q, mem, n - 1), q[i].dst, data);
      HoldsFit(DrainMem(q, mem, n), q[i].dst, data, size);
    } else {
      DrainFills(q, mem, n - 1, i, size);
      if q[n - 1].Ready() {
        WriteElsewhere(DrainMem(q, mem, n - 1), q[n - 1].dst, q[n - 1].src.value, q[i].dst, Fit(data, size));
      }
    }
  }

  // ---- the invariant -------------------------------------------------------

  ghost predicate QueueOk(q: seq<Transfer>, cap: nat) {
    forall i :: 0 <= i < |q| ==>
      && q[i].dst + q[i].nbytes <= cap
      && (q[i].src.Some? ==> |q[i].src.value| == q[i].nbytes)
      && (q[i].done ==> q[i].src.Some?)
  }

  /** Done transfers form a prefix of the queue, null sources aside. */
  ghost predicate DonePrefix(q: seq<Transfer>) {
    forall i, j :: 0 <= i < j < |q| && q[j].done ==> !q[i].Ready()
  }

  ghost predicate IndexOk(q: seq<Transfer>, index: map<int, nat>) {
    forall k: Key :: Pack(k) in index ==> index[Pack(k)] < |q| && q[index[Pack(k)]].key == k
  }

  ghost function Latest(index: map<int, nat>, k: Key): int {
    if Pack(k) in index then index[Pack(k)] else -1
  }

  /** No copy queued after a resident expert's own latest one touches its block. */
  ghost predicate Guarded(blocks: map<Key, Block>, q: seq<Transfer>, index: map<int, nat>) {
    forall k, j :: k in blocks && Latest(index, k) < j < |q| && 0 <= j ==>
      Disjoint(q[j].Range(), blocks[k].Range())
  }

  /** A resident expert's latest copy goes to its block. */
  ghost predicate Aimed(blocks: map<Key, Block>, q: seq<Transfer>, index: map<int, nat>)
    requires IndexOk(q, index)
  {
    forall k :: k in blocks && Pack(k) in index ==> q[index[Pack(k)]].dst == blocks[k].off
  }

  /** Once that copy is done, the block starts with its source, or is filled by it. */
  ghost predicate Filled(blocks: map<Key, Block>, mem: seq<Byte>, q: seq<Transfer>, index: map<int, nat>)
    requires IndexOk(q, index)
  {
    forall k :: k in blocks && Pack(k) in index && q[index[Pack(k)]].done && q[index[Pack(k)]].src.Some? ==>
      Holds(mem, blocks[k].off, Fit(q[index[Pack(k)]].src.value, blocks[k].size))
  }

  ghost predicate QInv(blocks: map<Key, Block>, mem: seq<Byte>, q: seq<Transfer>, index: map<int, nat>) {
    && QueueOk(q, |mem|) && DonePrefix(q) && IndexOk(q, index)
    && Guarded(blocks, q, index) && Aimed(blocks, q, index) && Filled(blocks, mem, q, index)
  }

  /**
   The state is consistent, except that nothing is said about the experts in `direct`:
   those whose block was reserved behind the prefetcher's back since their last prefetch.
   */
  ghost predicate Consistent(s: Prefetcher, direct: set<Key>) {
    && Inv(s.cache) && |s.mem| == s.cache.arena.cap
    && QInv(s.cache.blocks - direct, s.mem, s.queue, s.index)
  }

  ghost predicate PInv(s: Prefetcher) { Consistent(s, {}) }

  /** `d` may have lost blocks of `c`, but moved none except `k`. */
  ghost predicate Kept(c: map<Key, Block>, d: map<Key, Block>, k: Key) {
    forall j :: j in d && j != k ==> j in c && d[j].Range() == c[j].Range()
  }

  /** A copy of `t.key` touches no other block. */
  ghost predicate Spares(d: map<Key, Block>, t: Transfer) {
    forall j :: j in d && j != t.key ==> Disjoint(t.Range(), d[j].Range())
  }

  lemma EnqueueGuarded(c: map<Key, Block>, d: map<Key, Block>, q: seq<Transfer>, index: map<int, nat>, t: Transfer)
    requires IndexOk(q, index) && Guarded(c, q, index)
    requires Kept(c, d, t.key) && Spares(d, t)
    ensures Guarded(d, q + [t], index[Pack(t.key) := |q|])
  {
    var q', index' := q + [t], index[Pack(t.key) := |q|];
    forall k, j | k in d && Latest(index', k) < j < |q'| && 0 <= j
      ensures Disjoint(q'[j].Range(), d[k].Range())
    {
      if k != t.key {
        if Pack(k) == Pack(t.key) { PackInjective(k, t.key); }
        assert Latest(index', k) == Latest(index, k);
      }
    }
  }

  lemma EnqueueIndexed(q: seq<Transfer>, index: map<int, nat>, t: Transfer, k: Key)
    requires IndexOk(q, index)
    requires Pack(k) in index[Pack(t.key) := |q|]
    ensures var q', i := q + [t], index[Pack(t.key) := |q|][Pack(k)];
            && i < |q'|
            && (if k == t.key then q'[i] == t else Pack(k) in index && i == index[Pack(k)] && q'[i] == q[i])
  {
    if k != t.key && Pack(k) == Pack(t.key) { PackInjective(k, t.key); }
  }

  lemma EnqueueAimed(c: map<Key, Block>, d: map<Key, Block>, mem: seq<Byte>,
                     q: seq<Transfer>, index: map<int, nat>, t: Transfer)
    requires IndexOk(q, index) && Aimed(c, q, index) && Filled(c, mem, q, index)
    requires Kept(c, d, t.key) && !t.done && t.key in d && t.dst == d[t.key].off
    ensures var q', index' := q + [t], index[Pack(t.key) := |q|];
            IndexOk(q', index') && Aimed(d, q', index') && Filled(d, mem, q', index')
  {
    hide Pack, Holds, Fit;
    var q', index' := q + [t], index[Pack(t.key) := |q|];
    forall k: Key | Pack(k) in index' ensures index'[Pack(k)] < |q'| && q'[index'[Pack(k)]].key == k {
      EnqueueIndexed(q, index, t, k);
    }
    forall k | k in d && Pack(k) in index'
      ensures q'[index'[Pack(k)]].dst == d[k].off
      ensures q'[index'[Pack(k)]].done && q'[index'[Pack(k)]].src.Some? ==>
                Holds(mem, d[k].off, Fit(q'[index'[Pack(k)]].src.value, d[k].size))
    {
      EnqueueIndexed(q, index, t, k);
      if k != t.key { assert d[k].Range() == c[k].Range(); }
    }
  }

  /** Queueing a copy into the block of a resident expert. */
  lemma EnqueueInv(c: map<Key, Block>, d: map<Key, Block>, mem: seq<Byte>,
                   q: seq<Transfer>, index: map<int, nat>, t: Transfer)
    requires QInv(c, mem, q, index) && Kept(c, d, t.key) && Spares(d, t) && !t.done
    requires t.key in d && t.dst == d[t.key].off && t.Range().End() <= |mem|
    requires t.src.Some? ==> |t.src.value| == t.nbytes
    ensures QInv(d, mem, q + [t], index[Pack(t.key) := |q|])
  {
    hide Guarded, Aimed, Filled, IndexOk, Kept, Spares, Pack;
    EnqueueGuarded(c, d, q, index, t);
    EnqueueAimed(c, d, mem, q, index, t);
  }

  /** Losing blocks keeps the invariant. */
  lemma ShrinkInv(c: map<Key, Block>, d: map<Key, Block>, mem: seq<Byte>, q: seq<Transfer>, index: map<int, nat>)
    requires QInv(c, mem, q, index)
    requires forall j :: j in d ==> j in c && d[j].Range() == c[j].Range()
    ensures QInv(d, mem, q, index)
  {
    hide Pack, Holds, Fit;
    assert forall j :: j in d ==> d[j].off == d[j].Range().off && d[j].size == d[j].Range().size;
    assert forall j :: j in c ==> c[j].off == c[j].Range().off && c[j].size == c[j].Range().size;
  }

  lemma DrainedPrefix(q: seq<Transfer>, n: nat)
    requires DonePrefix(q)
    ensures DonePrefix(DrainQueue(q, n))
    ensures forall i :: 0 <= i < n && i < |q| ==> !DrainQueue(q, n)[i].Ready()
  {
  }

  /** A resident expert's block still holds its latest source after a drain, if that copy has run. */
  lemma DrainFilled(blocks: map<Key, Block>, mem: seq<Byte>, q: seq<Transfer>, index: map<int, nat>, n: nat, k: Key)
    requires QInv(blocks, mem, q, index) && n <= |q|
    requires k in blocks && Pack(k) in index && DrainQueue(q, n)[index[Pack(k)]].done
    ensures Holds(DrainMem(q, mem, n), blocks[k].off, Fit(q[index[Pack(k)]].src.value, blocks[k].size))
  {
    var i := index[Pack(k)];
    var t := q[i];
    var data := Fit(t.src.value, blocks[k].size);
    assert t.dst == blocks[k].off && |data| <= blocks[k].size;
    forall j | i < j < |q| && q[j].Ready()
      ensures |q[j].src.value| == q[j].nbytes && Disjoint(q[j].Range(), Extent(t.dst, |data|))
    {
      assert Latest(index, k) < j;
      assert Disjoint(q[j].Range(), blocks[k].Range());
    }
    hide Holds, Pack, Guarded, Aimed, IndexOk, DrainMem, Fit;
    if t.done {
      assert Holds(mem, blocks[k].off, data);
      DrainKeeps(q, mem, n, t.dst, data);
    } else {
      DrainFills(q, mem, n, i, blocks[k].size);
    }
  }

  /** Draining any prefix of the queue keeps the invariant. */
  lemma DrainInv(blocks: map<Key, Block>, mem: seq<Byte>, q: seq<Transfer>, index: map<int, nat>, n: nat)
    requires QInv(blocks, mem, q, index) && n <= |q|
    ensures QInv(blocks, DrainMem(q, mem, n), DrainQueue(q, n), index)
  {
    hide Pack, Holds, DrainMem, Fit;
    var q' := DrainQueue(q, n);
    DrainedPrefix(q, n);
    assert forall i :: 0 <= i < |q| ==> q'[i].Range() == q[i].Range() && q'[i].key == q[i].key && q'[i].src == q[i].src;
    forall k | k in blocks && Pack(k) in index && q'[index[Pack(k)]].done && q'[index[Pack(k)]].src.Some?
      ensures Holds(DrainMem(q, mem, n), blocks[k].off, Fit(q'[index[Pack(k)]].src.value, blocks[k].size))
    {
      DrainFilled(blocks, mem, q, index, n, k);
    }
  }
}
