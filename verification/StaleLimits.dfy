/**
 Where the guarantee of StaleWeights ends. Each hypothesis has a concrete run of the code
 without it, and a theorem that says exactly what the code does there for every input.
 */
module StaleLimits {
  import opened Wrappers
  import opened Extents
  import opened Memory
  import opened ArenaSpec
  import opened CacheSpec
  import opened PrefetchSpec
  import opened StaleWeights

  const X: Key := Key(0, 0)
  const Y: Key := Key(0, 1)

  function OneByte(): Prefetcher { Start(Empty(1), [0]) }

  lemma OneByteFirst()
    ensures var c := Ensure(Empty(1), X, 1, 0, []).0;
            c.arena == ArenaState(1, 1, 1, []) && c.blocks == map[X := Block(0, 1, 1, 0)] && c.tick == 1
    ensures Ensure(Empty(1), X, 1, 0, []).1
    ensures Choice(Empty(1), X, 1, [])
  {
  }

  lemma FreeOnly()
    ensures Free(ArenaState(1, 1, 1, []), 0, 1) == ArenaState(1, 0, 1, [Extent(0, 1)])
  {
    assert Insert([], Extent(0, 1)) == [Extent(0, 1)];
    assert Coalesce([Extent(0, 1)]) == [Extent(0, 1)];
  }

  lemma OneByteEvict(c: Cache, j: Key, b: Block)
    requires c.arena == ArenaState(1, 1, 1, []) && c.blocks == map[j := b] && b.off == 0 && b.size == 1
    ensures Victims(c, 1, [j])
    ensures EvictAll(c, [j]) == c.(arena := ArenaState(1, 0, 1, [Extent(0, 1)]), blocks := map[],
                                   stats := c.stats.(evictions := c.stats.evictions + 1))
  {
    hide Free;
    FreeOnly();
    var d := Evict(c, j);
    assert d.blocks == map[];
    assert [j][1..] == [];
    assert Victims(d, 1, []);
    assert EvictAll(c, [j]) == EvictAll(d, []) == d;
  }

  lemma OneByteSwap(c: Cache, j: Key, k: Key, b: Block, t: nat)
    requires c.arena == ArenaState(1, 1, 1, []) && c.tick == t && j != k
    requires c.blocks == map[j := b] && b.off == 0 && b.size == 1
    ensures Choice(c, k, 1, [j])
    ensures var (d, ok) := Ensure(c, k, 1, 0, [j]);
            ok && d.arena == ArenaState(1, 1, 1, []) && d.blocks == map[k := Block(0, 1, t + 1, 0)] && d.tick == t + 1
  {
    hide Victims, EvictAll;
    OneByteEvict(Request(c), j, b);
  }

  /** Two one-byte experts through a one-byte arena: the second takes the first one's byte. */
  function Displaced(): Prefetcher {
    var s := Step(OneByte(), PrefetchOp(X, Some([7]), 1, 0, []));
    Step(s, PrefetchOp(Y, Some([8]), 1, 0, [X]))
  }

  lemma DisplacedIs()
    ensures var s := Displaced();
            && s.cache.arena == ArenaState(1, 1, 1, []) && s.cache.tick == 2
            && s.cache.blocks == map[Y := Block(0, 1, 2, 0)]
            && s.mem == [0] && s.index == map[Pack(X) := 0, Pack(Y) := 1]
            && s.queue == [Transfer(X, 0, Some([7]), 1, false), Transfer(Y, 0, Some([8]), 1, false)]
  {
    hide Ensure, Pack;
    OneByteFirst();
    var c := Ensure(Empty(1), X, 1, 0, []).0;
    OneByteSwap(c, X, Y, Block(0, 1, 1, 0), 1);
  }

  /** `Wait` may report ready for an expert that is no longer resident. */
  lemma ReadyDoesNotMeanResident()
    ensures Wait(Displaced(), X).1 && X !in Wait(Displaced(), X).0.cache.blocks
  {
    hide Displaced;
    DisplacedIs();
    assert Pack(X) == 0 && Pack(Y) == 1;
  }

  /** Ready means resident exactly for experts that are resident already or have no source queued. */
  lemma ReadyMeansResidentIff(s: Prefetcher, k: Key)
    requires QueueOk(s.queue, |s.mem|)
    ensures (Wait(s, k).1 ==> k in Wait(s, k).0.cache.blocks) <==>
            k in s.cache.blocks || LatestSource(s, k).None? || LatestSource(s, k).value.None?
  {
    hide Wait, LatestSource, QueueOk;
    WaitReadyIff(s, k);
    WaitFrame(s, k);
  }

  // ---- reserving behind the prefetcher's back ----------------------------------

  lemma DrainNothing(q: seq<Transfer>, mem: seq<Byte>, n: nat)
    requires n <= |q| && forall i :: 0 <= i < n ==> !q[i].Ready()
    ensures DrainMem(q, mem, n) == mem
  {
    if n > 0 { DrainNothing(q, mem, n - 1); }
  }

  /** Both texts agree wherever they overlap. */
  predicate Agree(a: nat, x: seq<Byte>, b: nat, y: seq<Byte>) {
    forall i :: 0 <= i < |y| && a <= b + i < a + |x| ==> x[b + i - a] == y[i]
  }

  /** Outside the `n` bytes at `dst`, memory shows `data` at `off`. */
  predicate ShowsBeside(mem: seq<Byte>, dst: nat, n: nat, off: nat, data: seq<Byte>) {
    && off + |data| <= |mem|
    && forall i :: 0 <= i < |data| && !(dst <= off + i < dst + n) ==> mem[off + i] == data[i]
  }

  /** What a range holds after a copy: the copy where it reaches, and what was there before elsewhere. */
  lemma WriteShowsIff(mem: seq<Byte>, dst: nat, src: seq<Byte>, off: nat, data: seq<Byte>)
    requires dst + |src| <= |mem|
    ensures Holds(Write(mem, dst, src), off, data) <==>
            Agree(dst, src, off, data) && ShowsBeside(mem, dst, |src|, off, data)
  {
    var r := Write(mem, dst, src);
    if Agree(dst, src, off, data) && ShowsBeside(mem, dst, |src|, off, data) {
      forall i | 0 <= i < |data| ensures r[off + i] == data[i] {}
      assert r[off..off + |data|] == data;
    }
    if Holds(r, off, data) {
      forall i | 0 <= i < |data| ensures r[off + i] == data[i] {
        assert r[off..off + |data|][i] == r[off + i];
      }
    }
  }

  /**
   What a ready wait shows, at any place and in any state. If the latest copy of `k` is
   done, no byte moves; if it is pending, the bytes are those of the copy where it
   reaches, and elsewhere those the earlier pending copies leave.
   */
  lemma WaitShowsIff(s: Prefetcher, k: Key, off: nat, data: seq<Byte>, direct: set<Key>)
    requires Consistent(s, direct) && Wait(s, k).1
    ensures var i := s.index[Pack(k)]; var t := s.queue[i];
            Holds(Wait(s, k).0.mem, off, data) <==>
            if t.done then Holds(s.mem, off, data)
            else Agree(t.dst, t.src.value, off, data)
                 && ShowsBeside(DrainMem(s.queue, s.mem, i), t.dst, t.nbytes, off, data)
  {
    hide Pack, Holds, Inv, QInv, Agree, ShowsBeside;
    ConsistentQueue(s, direct);
    var i := s.index[Pack(k)];
    var t := s.queue[i];
    if t.done {
      DrainNothing(s.queue, s.mem, i + 1);
    } else {
      WriteShowsIff(DrainMem(s.queue, s.mem, i), t.dst, t.src.value, off, data);
    }
  }

  /**
   A direct miss reserves a block for `k`, and nothing fills it anew. The wait still reports
   ready, and its block shows `data` exactly if: the last copy of `k` was done and those
   bytes lay there before the reservation; or that copy is pending, agrees with `data` where
   it happens to reach the new block, and the copies before it leave the rest of `data` there.
   */
  lemma DirectMissShowsIff(s: Prefetcher, call: CacheOp, k: Key, data: seq<Byte>, direct: set<Key>)
    requires Consistent(s, direct) && CachePossible(s.cache, call) && k in Reserved(s.cache, call)
    requires LatestSource(s, k).Some? && LatestSource(s, k).value.Some?
    requires k in CacheStep(s.cache, call).blocks
    ensures var d := Step(s, CacheCall(call)); var off := d.cache.blocks[k].off;
            var i := s.index[Pack(k)]; var t := s.queue[i];
            && Wait(d, k).1 && k in Wait(d, k).0.cache.blocks && Wait(d, k).0.cache.blocks[k].off == off
            && (Holds(Wait(d, k).0.mem, off, data) <==>
                if t.done then Holds(s.mem, off, data)
                else Agree(t.dst, t.src.value, off, data)
                     && ShowsBeside(DrainMem(s.queue, s.mem, i), t.dst, t.nbytes, off, data))
  {
    hide CacheStep, CachePossible, Pack, Holds, Consistent, DrainMem, Wait, Agree, ShowsBeside, Reserved;
    var d := Step(s, CacheCall(call));
    CallInv(s, call, direct);
    ConsistentQueue(d, direct + Reserved(s.cache, call));
    WaitReadyIff(d, k);
    WaitFrame(d, k);
    WaitShowsIff(d, k, d.cache.blocks[k].off, data, direct + Reserved(s.cache, call));
  }

  /**
   When what a ready wait shows is there to stay: exactly if no later pending copy reaches
   the block. A settled block keeps its bytes for as long as its expert stays resident and
   is neither prefetched nor reserved again (StaleWeights.RunKeepsSettled).
   */
  lemma WaitSettlesIff(s: Prefetcher, k: Key, data: seq<Byte>, direct: set<Key>)
    requires Consistent(s, direct) && Wait(s, k).1 && k in s.cache.blocks
    ensures Settled(Wait(s, k).0, k, data) <==>
            && |data| <= s.cache.blocks[k].size
            && Holds(Wait(s, k).0.mem, s.cache.blocks[k].off, data)
            && forall j :: s.index[Pack(k)] < j < |s.queue| && s.queue[j].Ready() ==>
                 Disjoint(s.queue[j].Range(), s.cache.blocks[k].Range())
  {
    hide Pack, Holds, Inv, QInv, DrainMem, Disjoint;
    ConsistentQueue(s, direct);
    var n := s.index[Pack(k)] + 1;
    DrainedPrefix(s.queue, n);
    var w := Wait(s, k).0;
    assert forall j :: 0 <= j < |s.queue| ==>
      w.queue[j].Range() == s.queue[j].Range() && (j >= n ==> w.queue[j].Ready() == s.queue[j].Ready());
  }

  /**
   The same over runs, for directly reserved experts too: what a ready wait shows of `k`, with
   no later pending copy reaching its block, is still there at every later step.
   */
  lemma ShownStays(ss: seq<Prefetcher>, ops: seq<Op>, i: nat, j: nat, k: Key, data: seq<Byte>)
    requires Run(ss, ops) && Fresh(ss[0]) && i < j < |ss|
    requires ops[i] == WaitOp(k) && Wait(ss[i], k).1 && k in ss[i].cache.blocks && k in ss[j].cache.blocks
    requires |data| <= ss[i].cache.blocks[k].size && Holds(ss[i + 1].mem, ss[i].cache.blocks[k].off, data)
    requires Pack(k) in ss[i].index
    requires forall m :: ss[i].index[Pack(k)] < m < |ss[i].queue| && ss[i].queue[m].Ready() ==>
               Disjoint(ss[i].queue[m].Range(), ss[i].cache.blocks[k].Range())
    requires forall m :: i < m < j ==> !Renews(ss[m], ops[m], k)
    ensures Holds(ss[j].mem, ss[j].cache.blocks[k].off, data)
  {
    hide Consistent, Wait, Possible, Direct, Holds, Pack, Disjoint, Renews;
    RunInv(ss, ops, i);
    WaitFrame(ss[i], k);
    WaitSettlesIff(ss[i], k, data, Direct(ss, ops, i));
    RunKeepsSettled(ss, ops, i + 1, j, k, data);
  }

  lemma DrainedDisplaced(s: Prefetcher)
    requires s == SynchronizeAll(Displaced())
    ensures s.cache == Displaced().cache && s.mem == [8] && s.index == map[Pack(X) := 0, Pack(Y) := 1]
    ensures s.queue == [Transfer(X, 0, Some([7]), 1, true), Transfer(Y, 0, Some([8]), 1, true)]
  {
    hide Displaced, Pack;
    DisplacedIs();
    var q := Displaced().queue;
    assert DrainMem(q, [0], 0) == [0];
    assert DrainMem(q, [0], 1) == Write([0], 0, [7]) == [7];
    assert DrainMem(q, [0], 2) == Write([7], 0, [8]) == [8];
  }

  /**
   Reserving a block behind the prefetcher's back, as sync_fallback does, breaks the
   guarantee: the expert is resident, its old transfer reports ready, and the block
   still holds the expert that was there before.
   */
  lemma DirectEnsureServesStaleBytes()
    ensures var s := SynchronizeAll(Displaced());
            var d := Step(s, CacheCall(Ensuring(X, 1, 0, [Y])));
            var (w, ready) := Wait(d, X);
            && Choice(s.cache, X, 1, [Y]) && ready
            && X in w.cache.blocks && !Holds(w.mem, w.cache.blocks[X].off, [7])
  {
    hide Displaced, Ensure, Choice;
    var s := SynchronizeAll(Displaced());
    DrainedDisplaced(s);
    DisplacedIs();
    OneByteSwap(s.cache, Y, X, Block(0, 1, 2, 0), 2);
    var d := s.(cache := Ensure(s.cache, X, 1, 0, [Y]).0);
    assert DrainMem(d.queue, d.mem, 0) == [8];
    assert DrainMem(d.queue, d.mem, 1) == [8];
    assert [8][0..1] == [8] && [7][0] != [8][0];
  }

  const XCopy: Transfer := Transfer(X, 0, Some([7]), 1, false)
  const YCopy: Transfer := Transfer(Y, 0, Some([8]), 1, false)

  /** X reserved again, by a direct call, while its copy is still pending. */
  function Retaken(): Prefetcher { Step(Displaced(), CacheCall(Ensuring(X, 1, 0, [Y]))) }

  lemma RetakenIs()
    ensures Choice(Displaced().cache, X, 1, [Y])
    ensures var d := Retaken();
            && X in d.cache.blocks && d.cache.blocks[X].off == 0
            && d.mem == [0] && Pack(X) in d.index && d.index[Pack(X)] == 0 && d.queue == [XCopy, YCopy]
  {
    hide Displaced, Ensure, Choice, Pack;
    DisplacedIs();
    assert Pack(X) != Pack(Y) by { PackApart(); }
    OneByteSwap(Displaced().cache, Y, X, Block(0, 1, 2, 0), 2);
  }

  lemma PackApart()
    ensures Pack(X) != Pack(Y)
  {
  }

  lemma WaitedIs(d: Prefetcher)
    requires d.mem == [0] && Pack(X) in d.index && d.index[Pack(X)] == 0 && d.queue == [XCopy, YCopy]
    ensures var w := Wait(d, X).0;
            Wait(d, X).1 && w.cache == d.cache && w.mem == [7] && w.queue == [XCopy.(done := true), YCopy]
  {
    hide Pack;
    assert DrainMem(d.queue, [0], 0) == [0];
    assert DrainMem(d.queue, [0], 1) == Write([0], 0, [7]) == [7];
  }

  lemma DrainedIs(w: Prefetcher)
    requires w.mem == [7] && w.queue == [XCopy.(done := true), YCopy]
    ensures SynchronizeAll(w).mem == [8] && SynchronizeAll(w).cache == w.cache
  {
    assert DrainMem(w.queue, [7], 0) == [7];
    assert DrainMem(w.queue, [7], 1) == [7];
    assert DrainMem(w.queue, [7], 2) == Write([7], 0, [8]) == [8];
  }

  /**
   Reserved again while its copy is still pending, the expert gets its own byte back: the wait
   is right. But the displaced copy of Y is still queued for that byte, and the next drain
   overwrites it while X stays resident.
   */
  lemma DirectEnsureLosesBytesLater()
    ensures var d := Retaken(); var w := Step(d, WaitOp(X)); var z := Step(w, SyncOp);
            && Choice(Displaced().cache, X, 1, [Y]) && Wait(d, X).1
            && X in w.cache.blocks && Holds(w.mem, w.cache.blocks[X].off, [7])
            && X in z.cache.blocks && !Holds(z.mem, z.cache.blocks[X].off, [7])
  {
    hide Retaken, Displaced, Choice, Wait, SynchronizeAll, Pack;
    RetakenIs();
    WaitedIs(Retaken());
    DrainedIs(Wait(Retaken(), X).0);
    assert [7][0..1] == [7] && [8][0..1] == [8] && [8][0] != [7][0];
  }

  // ---- a hit with a larger size ----------------------------------------------

  /** X and Y side by side in two bytes, both loaded. */
  function SideBySide(): Prefetcher {
    var s := Step(Start(Empty(2), [0, 0]), PrefetchOp(X, Some([1]), 1, 0, []));
    var t := Step(s, PrefetchOp(Y, Some([2]), 1, 0, []));
    Step(t, SyncOp)
  }

  lemma TwoBytesFirst()
    ensures var (c, ok) := Ensure(Empty(2), X, 1, 0, []);
            ok && c.arena == ArenaState(2, 1, 1, []) && c.blocks == map[X := Block(0, 1, 1, 0)] && c.tick == 1
  {
  }

  lemma TwoBytesSecond(c: Cache)
    requires c.arena == ArenaState(2, 1, 1, []) && c.blocks == map[X := Block(0, 1, 1, 0)] && c.tick == 1
    ensures var (d, ok) := Ensure(c, Y, 1, 0, []);
            ok && d.arena == ArenaState(2, 2, 2, []) && d.tick == 2
            && d.blocks == map[X := Block(0, 1, 1, 0), Y := Block(1, 1, 2, 0)]
  {
  }

  lemma SideBySideIs()
    ensures var s := SideBySide();
            && s.cache.blocks == map[X := Block(0, 1, 1, 0), Y := Block(1, 1, 2, 0)]
            && s.mem == [1, 2] && |s.queue| == 2 && !s.queue[0].Ready() && !s.queue[1].Ready()
            && Pack(Y) in s.index && s.index[Pack(Y)] == 1 && s.queue[1].done
  {
    hide Ensure, Pack;
    TwoBytesFirst();
    TwoBytesSecond(Ensure(Empty(2), X, 1, 0, []).0);
    var s := Step(Start(Empty(2), [0, 0]), PrefetchOp(X, Some([1]), 1, 0, []));
    var t := Step(s, PrefetchOp(Y, Some([2]), 1, 0, []));
    assert t.queue == [Transfer(X, 0, Some([1]), 1, false), Transfer(Y, 1, Some([2]), 1, false)];
    assert DrainMem(t.queue, [0, 0], 0) == [0, 0];
    assert DrainMem(t.queue, [0, 0], 1) == Write([0, 0], 0, [1]) == [1, 0];
    assert DrainMem(t.queue, [0, 0], 2) == Write([1, 0], 1, [2]) == [1, 2];
  }

  /** A hit ignores the size it is given: a longer copy for X overwrites the settled block of Y. */
  lemma LongerHitOverruns()
    ensures var s := SideBySide();
            var t := Step(s, PrefetchOp(X, Some([3, 4]), 2, 0, []));
            var w := Step(t, WaitOp(X));
            && Settled(s, Y, [2]) && Choice(s.cache, X, 2, [])
            && Y in w.cache.blocks && !Holds(w.mem, w.cache.blocks[Y].off, [2])
  {
    hide SideBySide, Pack;
    SideBySideIs();
    var s := SideBySide();
    var t := Step(s, PrefetchOp(X, Some([3, 4]), 2, 0, []));
    assert [1, 2][1..2] == [2];
    assert t.queue == s.queue + [Transfer(X, 0, Some([3, 4]), 2, false)];
    assert DrainMem(t.queue, [1, 2], 0) == [1, 2];
    assert DrainMem(t.queue, [1, 2], 1) == [1, 2];
    assert DrainMem(t.queue, [1, 2], 2) == [1, 2];
    assert DrainMem(t.queue, [1, 2], 3) == Write([1, 2], 0, [3, 4]) == [3, 4];
    assert [3, 4][1..2] == [4] && [4][0] != [2][0];
  }

  /**
   Exactly which hits leave a settled expert settled: those whose copy, of whatever size,
   reaches none of its bytes. The size of the block that is hit does not matter.
   */
  lemma HitKeepsSettledIff(s: Prefetcher, op: Op, j: Key, data: seq<Byte>)
    requires Inv(s.cache) && op.PrefetchOp? && op.key in s.cache.blocks && op.src.Some? && Settled(s, j, data)
    ensures Settled(Step(s, op), j, data) <==>
            Disjoint(Extent(s.cache.blocks[op.key].off, op.nbytes), s.cache.blocks[j].Range())
  {
    hide Inv, Ensure, Holds, Pack, Disjoint;
    HitFrame(s.cache, op, j);
    var c := Ensure(s.cache, op.key, op.nbytes, op.priority, op.victims).0;
    var t := Transfer(op.key, c.blocks[op.key].off, op.src, op.nbytes, false);
    assert Step(s, op).queue[|s.queue|] == t && t.Ready();
    if Disjoint(t.Range(), s.cache.blocks[j].Range()) { EnqueueKeepsSettled(s, c, t, j, data); }
  }

  lemma HitFrame(c: Cache, op: Op, j: Key)
    requires Inv(c) && op.PrefetchOp? && op.key in c.blocks && j in c.blocks
    ensures var (d, ok) := Ensure(c, op.key, op.nbytes, op.priority, op.victims);
            && ok && op.key in d.blocks && d.blocks[op.key].off == c.blocks[op.key].off
            && j in d.blocks && d.blocks[j].Range() == c.blocks[j].Range() && d.blocks[j].off == c.blocks[j].off
            && d.blocks[j].size == c.blocks[j].size
  {
    hide Inv;
  }

  lemma WriteOver(mem: seq<Byte>, dst: nat, src: seq<Byte>, off: nat, data: seq<Byte>)
    requires dst + |src| <= |mem| && Holds(mem, off, data)
    ensures Holds(Write(mem, dst, src), off, data) <==> Agree(dst, src, off, data)
  {
    WriteShowsIff(mem, dst, src, off, data);
    forall i | 0 <= i < |data| ensures mem[off + i] == data[i] {
      assert mem[off..off + |data|][i] == mem[off + i];
    }
  }

  /**
   What such a hit does to memory once it is waited for: a settled expert still has its
   bytes exactly if the new copy agrees with them wherever the two overlap.
   */
  lemma HitKeepsBytesIff(s: Prefetcher, op: Op, j: Key, data: seq<Byte>)
    requires Inv(s.cache) && op.PrefetchOp? && op.key in s.cache.blocks && op.src.Some? && Settled(s, j, data)
    requires QueueOk(s.queue, |s.mem|) && |op.src.value| == op.nbytes
    requires s.cache.blocks[op.key].off + op.nbytes <= |s.mem|
    ensures var w := Wait(Step(s, op), op.key).0; var off := s.cache.blocks[j].off;
            Holds(w.mem, off, data) <==> Agree(s.cache.blocks[op.key].off, op.src.value, off, data)
  {
    hide Inv, Ensure, Holds, Pack, Write, Agree;
    HitFrame(s.cache, op, j);
    var n := |s.queue|;
    var t := Transfer(op.key, s.cache.blocks[op.key].off, op.src, op.nbytes, false);
    assert Step(s, op).queue == s.queue + [t];
    DrainPrefix(s.queue, t, s.mem, n);
    DrainKeeps(s.queue, s.mem, n, s.cache.blocks[j].off, data);
    WriteOver(DrainMem(s.queue, s.mem, n), t.dst, op.src.value, s.cache.blocks[j].off, data);
  }
}
