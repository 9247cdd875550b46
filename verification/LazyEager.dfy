/** Lazy, in-order copying refines copying at issue time (dee.cpp/src/async_prefetcher.cpp). */
module LazyEager {
  import opened Wrappers
  import opened Memory
  import opened CacheSpec
  import opened PrefetchSpec
  import opened StaleWeights

  /** A prefetcher that copies when the copy is issued: nothing is ever queued. */
  datatype Eager = Eager(cache: Cache, mem: seq<Byte>)

  function EagerStep(e: Eager, op: Op): Eager {
    match op
    case PrefetchOp(k, src, n, p, vs) =>
      var (c, ok) := Ensure(e.cache, k, n, p, vs);
      if ok && k in c.blocks && src.Some? then Eager(c, Write(e.mem, c.blocks[k].off, src.value))
      else Eager(c, e.mem)
    case CacheCall(call) => e.(cache := CacheStep(e.cache, call))
    case WaitOp(_) => e
    case SyncOp => e
    case ResetOp => e
  }

  function EagerRun(e: Eager, ops: seq<Op>): Eager {
    if ops == [] then e else EagerStep(EagerRun(e, ops[..|ops| - 1]), ops[|ops| - 1])
  }

  /** The memory once every pending copy has run. */
  function Flushed(s: Prefetcher): seq<Byte> { DrainMem(s.queue, s.mem, |s.queue|) }

  function Abstract(s: Prefetcher): Eager { Eager(s.cache, Flushed(s)) }

  /** Draining in two goes is draining once. */
  lemma {:induction false} DrainTwice(q: seq<Transfer>, mem: seq<Byte>, n: nat, m: nat)
    requires n <= |q| && m <= |q|
    ensures DrainMem(DrainQueue(q, n), DrainMem(q, mem, n), m) == DrainMem(q, mem, if m < n then n else m)
  {
    hide Write;
    if m > 0 { DrainTwice(q, mem, n, m - 1); }
  }

  lemma DrainRefines(s: Prefetcher, n: nat)
    requires n <= |s.queue|
    ensures Abstract(DrainTo(s, n)) == Abstract(s)
  {
    DrainTwice(s.queue, s.mem, n, |s.queue|);
  }

  lemma PrefetchRefines(s: Prefetcher, op: Op)
    requires op.PrefetchOp?
    ensures Abstract(Step(s, op)) == EagerStep(Abstract(s), op)
  {
    hide Ensure, Write, Pack;
    var PrefetchOp(k, src, n, p, vs) := op;
    var (c, ok) := Ensure(s.cache, k, n, p, vs);
    if ok && k in c.blocks {
      var t := Transfer(k, c.blocks[k].off, src, n, false);
      DrainPrefix(s.queue, t, s.mem, |s.queue|);
    }
  }

  /** Every operation but `Reset` does to the eager view what the eager prefetcher does. */
  lemma StepRefines(s: Prefetcher, op: Op)
    requires !op.ResetOp?
    ensures Abstract(Step(s, op)) == EagerStep(Abstract(s), op)
  {
    hide DrainMem, DrainQueue;
    match op
    case PrefetchOp(_, _, _, _, _) =>
      hide Prefetch;
      PrefetchRefines(s, op);
    case WaitOp(k) =>
      if Pack(k) in s.index && s.index[Pack(k)] < |s.queue| {
        DrainRefines(s.(stats := s.stats.(waited := s.stats.waited + 1)), s.index[Pack(k)] + 1);
      }
    case SyncOp => DrainRefines(s, |s.queue|);
    case CacheCall(_) => hide CacheStep;
  }

  // ---- what a reset loses ---------------------------------------------------------

  /** A pending copy that writes at least one byte of the arena. */
  predicate Writes(t: Transfer, cap: nat) {
    t.Ready() && t.src.value != [] && t.dst + |t.src.value| <= cap
  }

  /** Whatever the arena holds, resetting now refines the eager prefetcher. */
  ghost predicate ResetLossless(s: Prefetcher) {
    forall m: seq<Byte> :: |m| == |s.mem| ==>
      Abstract(Reset(s.(mem := m))) == EagerStep(Abstract(s.(mem := m)), ResetOp)
  }

  lemma {:induction false} DrainIdle(q: seq<Transfer>, mem: seq<Byte>, n: nat, m: nat)
    requires n <= m <= |q| && forall i :: n <= i < m ==> !Writes(q[i], |mem|)
    ensures DrainMem(q, mem, m) == DrainMem(q, mem, n)
  {
    if n < m { DrainIdle(q, mem, n, m - 1); }
  }

  /** The last queued copy that writes decides at least one byte. */
  lemma LastWriteShows(q: seq<Transfer>, mem: seq<Byte>, i: nat)
    requires i < |q| && Writes(q[i], |mem|) && forall j :: i < j < |q| ==> !Writes(q[j], |mem|)
    ensures DrainMem(q, mem, |q|)[q[i].dst] == q[i].src.value[0]
  {
    DrainIdle(q, mem, i + 1, |q|);
  }

  lemma LastWrite(q: seq<Transfer>, cap: nat, n: nat) returns (i: nat)
    requires n < |q| && Writes(q[n], cap)
    ensures i < |q| && Writes(q[i], cap) && forall j :: i < j < |q| ==> !Writes(q[j], cap)
  {
    i := |q| - 1;
    while !Writes(q[i], cap)
      invariant n <= i < |q| && forall j :: i < j < |q| ==> !Writes(q[j], cap)
      decreases i
    {
      i := i - 1;
    }
  }

  /** A reset loses no byte, whatever the arena holds, exactly if no queued copy still has one to write. */
  lemma ResetRefinesIff(s: Prefetcher)
    ensures ResetLossless(s) <==> forall i :: 0 <= i < |s.queue| ==> !Writes(s.queue[i], |s.mem|)
  {
    hide Writes;
    if forall i :: 0 <= i < |s.queue| ==> !Writes(s.queue[i], |s.mem|) {
      forall m: seq<Byte> | |m| == |s.mem|
        ensures Abstract(Reset(s.(mem := m))) == EagerStep(Abstract(s.(mem := m)), ResetOp)
      {
        DrainIdle(s.queue, m, 0, |s.queue|);
      }
    } else {
      var n :| 0 <= n < |s.queue| && Writes(s.queue[n], |s.mem|);
      ResetLoses(s, n);
    }
  }

  lemma ResetLoses(s: Prefetcher, n: nat)
    requires n < |s.queue| && Writes(s.queue[n], |s.mem|)
    ensures !ResetLossless(s)
  {
    var i := LastWrite(s.queue, |s.mem|, n);
    var t := s.queue[i];
    var other: Byte := if t.src.value[0] == 0 then 1 else 0;
    var m: seq<Byte> := seq(|s.mem|, _ => other);
    LastWriteShows(s.queue, m, i);
    assert m[t.dst] == other;
    assert Abstract(Reset(s.(mem := m))).mem == m;
  }

  /** A run that loses a copy: one expert prefetched, then a reset before anyone waits. */
  lemma ResetDropsCopy()
    ensures var x := Key(0, 0);
            var ops := [PrefetchOp(x, Some([7]), 1, 0, []), ResetOp];
            var s := Step(Step(Start(Empty(1), [0]), ops[0]), ops[1]);
            && Abstract(s).cache == EagerRun(Eager(Empty(1), [0]), ops).cache && x in s.cache.blocks
            && Abstract(s).mem == [0] && EagerRun(Eager(Empty(1), [0]), ops).mem == [7]
  {
    var x := Key(0, 0);
    var op := PrefetchOp(x, Some([7]), 1, 0, []);
    var e := Eager(Empty(1), [0]);
    var c := Ensure(Empty(1), x, 1, 0, []).0;
    assert c.blocks[x].off == 0;
    assert EagerStep(e, op).mem == Write([0], 0, [7]) == [7];
    hide Ensure;
    assert [op, ResetOp][..1] == [op] && [op][..0] == [];
    assert EagerRun(e, [op]) == EagerStep(EagerRun(e, []), op);
  }

  /** Between resets the lazy prefetcher, pending copies applied, is the eager one. */
  lemma {:induction false} RunRefines(ss: seq<Prefetcher>, ops: seq<Op>, i: nat)
    requires Run(ss, ops) && i < |ss| && ss[0].queue == []
    requires forall j :: 0 <= j < |ops| ==> !ops[j].ResetOp?
    ensures Abstract(ss[i]) == EagerRun(Eager(ss[0].cache, ss[0].mem), ops[..i])
  {
    hide Step, Possible, EagerStep;
    if i > 0 {
      RunRefines(ss, ops, i - 1);
      StepRefines(ss[i - 1], ops[i - 1]);
      assert ops[..i][..i - 1] == ops[..i - 1];
    }
  }

  /** `SynchronizeAll` makes the two memories equal. */
  lemma SyncMakesEqual(ss: seq<Prefetcher>, ops: seq<Op>, i: nat)
    requires Run(ss, ops) && i < |ops| && ss[0].queue == [] && ops[i] == SyncOp
    requires forall j :: 0 <= j < |ops| ==> !ops[j].ResetOp?
    ensures Eager(ss[i + 1].cache, ss[i + 1].mem) == EagerRun(Eager(ss[0].cache, ss[0].mem), ops[..i + 1])
  {
    hide Possible, EagerStep, DrainMem;
    RunRefines(ss, ops, i + 1);
    RunRefines(ss, ops, i);
    assert ops[..i + 1][..i] == ops[..i];
    SyncFlushes(ss[i]);
  }

  lemma SyncFlushes(s: Prefetcher)
    ensures SynchronizeAll(s).mem == Flushed(s) == Flushed(SynchronizeAll(s))
  {
    DrainRefines(s, |s.queue|);
  }

  /** In every run, a transfer is done only if every earlier one with a source is done. */
  lemma RunDonePrefix(ss: seq<Prefetcher>, ops: seq<Op>, i: nat, a: nat, b: nat)
    requires Run(ss, ops) && i < |ss| && Fresh(ss[0])
    requires a < b < |ss[i].queue| && ss[i].queue[b].done && ss[i].queue[a].src.Some?
    ensures ss[i].queue[a].done
  {
    hide Consistent;
    RunInv(ss, ops, i);
    ConsistentQueue(ss[i], Direct(ss, ops, i));
  }
}
