/**
 The mock CUDA device of dee.cpp/src/cuda_backend_mock.cpp on values: any number of streams
 over one memory. Copies are numbered and queued per stream, an event remembers a stream
 and a number, and synchronizing runs a stream's queue, oldest first, up to that number.
 Copy sources do not change while queued.
 */
module MockDeviceSpec {
  import opened Wrappers
  import opened Memory

  datatype MockCopy = MockCopy(dst: nat, data: seq<Byte>, seqNo: nat) {
    predicate Covers(x: int) { dst <= x < dst + |data| }
  }

  /** One stream together with the memory it copies to. */
  datatype Stream = Stream(mem: seq<Byte>, pending: seq<MockCopy>, nextSeq: nat)

  function Enqueue(s: Stream, dst: nat, data: seq<Byte>): Stream {
    s.(pending := s.pending + [MockCopy(dst, data, s.nextSeq)], nextSeq := s.nextSeq + 1)
  }

  /** Run queued copies while the oldest is numbered below `mark`. */
  function DrainBelow(s: Stream, mark: nat): Stream
    decreases |s.pending|
  {
    if s.pending == [] || s.pending[0].seqNo >= mark then s
    else
      DrainBelow(s.(mem := Write(s.mem, s.pending[0].dst, s.pending[0].data), pending := s.pending[1..]), mark)
  }

  function WriteAll(mem: seq<Byte>, cs: seq<MockCopy>): (r: seq<Byte>)
    ensures |r| == |mem|
    decreases |cs|
  {
    if cs == [] then mem else WriteAll(Write(mem, cs[0].dst, cs[0].data), cs[1..])
  }

  function StreamSync(s: Stream): Stream { s.(mem := WriteAll(s.mem, s.pending), pending := []) }

  // ---- the device ------------------------------------------------------------

  datatype Queue = Queue(pending: seq<MockCopy>, nextSeq: nat)

  datatype Mark = Mark(stream: int, watermark: nat)

  /** Streams and events by name; one that was never used is as it was created. */
  datatype Device = Device(mem: seq<Byte>, queues: map<int, Queue>, marks: map<int, Mark>)

  function QueueOf(d: Device, s: int): Queue { if s in d.queues then d.queues[s] else Queue([], 0) }

  function View(d: Device, s: int): Stream { Stream(d.mem, QueueOf(d, s).pending, QueueOf(d, s).nextSeq) }

  function Put(d: Device, s: int, v: Stream): Device {
    d.(mem := v.mem, queues := d.queues[s := Queue(v.pending, v.nextSeq)])
  }

  datatype Op =
    | CopyOp(stream: int, dst: nat, data: seq<Byte>)
    | RecordOp(event: int, stream: int)
    | EventSyncOp(event: int)
    | StreamSyncOp(stream: int)

  function Step(d: Device, op: Op): Device {
    match op
    case CopyOp(s, dst, data) => Put(d, s, Enqueue(View(d, s), dst, data))
    case RecordOp(e, s) => d.(marks := d.marks[e := Mark(s, QueueOf(d, s).nextSeq)])
    case EventSyncOp(e) =>
      if e !in d.marks then d
      else Put(d, d.marks[e].stream, DrainBelow(View(d, d.marks[e].stream), d.marks[e].watermark))
    case StreamSyncOp(s) => Put(d, s, StreamSync(View(d, s)))
  }

  function Run(d: Device, ops: seq<Op>): Device {
    if ops == [] then d else Step(Run(d, ops[..|ops| - 1]), ops[|ops| - 1])
  }

  function Start(mem: seq<Byte>): Device { Device(mem, map[], map[]) }

  // ---- what the trace alone determines ------------------------------------------

  /** The copies issued on a stream, in order, numbered from zero. */
  function Issued(ops: seq<Op>, s: int): seq<MockCopy> {
    if ops == [] then []
    else
      var before, op := Issued(ops[..|ops| - 1], s), ops[|ops| - 1];
      if op.CopyOp? && op.stream == s then before + [MockCopy(op.dst, op.data, |before|)] else before
  }

  /** Where event `e` was last recorded, and how many copies its stream had been issued by then. */
  function Recorded(ops: seq<Op>, e: int): Option<Mark> {
    if ops == [] then None
    else
      var before, op := ops[..|ops| - 1], ops[|ops| - 1];
      if op.RecordOp? && op.event == e then Some(Mark(op.stream, |Issued(before, op.stream)|)) else Recorded(before, e)
  }

  /** The stream a synchronization drains, and up to which copy. */
  function Target(before: seq<Op>, op: Op): Option<Mark> {
    match op
    case StreamSyncOp(s) => Some(Mark(s, |Issued(before, s)|))
    case EventSyncOp(e) => Recorded(before, e)
    case _ => None
  }

  /** How many copies of a stream have run: each synchronization runs those issued before its mark and no others. */
  function Completed(ops: seq<Op>, s: int): nat {
    if ops == [] then 0
    else
      var before, op := ops[..|ops| - 1], ops[|ops| - 1];
      var mark := Target(before, op);
      if mark.Some? && mark.value.stream == s && mark.value.watermark > Completed(before, s) then mark.value.watermark
      else Completed(before, s)
  }

  /** A copy and the stream it was issued on. */
  datatype Issue = Issue(stream: int, copy: MockCopy)

  function Tag(s: int, cs: seq<MockCopy>): seq<Issue> { seq(|cs|, i requires 0 <= i < |cs| => Issue(s, cs[i])) }

  function Copies(xs: seq<Issue>): seq<MockCopy> { seq(|xs|, i requires 0 <= i < |xs| => xs[i].copy) }

  /** All copies, in the order in which they were issued. */
  function Program(ops: seq<Op>): seq<Issue> {
    if ops == [] then []
    else
      var before, op := ops[..|ops| - 1], ops[|ops| - 1];
      if op.CopyOp? then Program(before) + [Issue(op.stream, MockCopy(op.dst, op.data, |Issued(before, op.stream)|))]
      else Program(before)
  }

  /** The copies of one synchronization: those of its stream that have not run, up to its mark. */
  ghost function Batch(before: seq<Op>, op: Op): seq<Issue> {
    var mark := Target(before, op);
    if mark.None? then []
    else
      var s, n := mark.value.stream, Completed(before, mark.value.stream);
      if n < mark.value.watermark <= |Issued(before, s)| then Tag(s, Issued(before, s)[n..mark.value.watermark]) else []
  }

  /** All copies that have run, in the order in which they ran. */
  ghost function Executed(ops: seq<Op>): seq<Issue> {
    if ops == [] then []
    else Executed(ops[..|ops| - 1]) + Batch(ops[..|ops| - 1], ops[|ops| - 1])
  }

  // ---- writing ---------------------------------------------------------------

  lemma {:induction false} WriteAllConcat(mem: seq<Byte>, cs: seq<MockCopy>, ds: seq<MockCopy>)
    ensures WriteAll(mem, cs + ds) == WriteAll(WriteAll(mem, cs), ds)
    decreases |cs|
  {
    hide Write;
    if cs == [] {
      assert [] + ds == ds;
    } else {
      assert (cs + ds)[1..] == cs[1..] + ds;
      WriteAllConcat(Write(mem, cs[0].dst, cs[0].data), cs[1..], ds);
    }
  }

  lemma WriteAllOne(mem: seq<Byte>, c: MockCopy)
    ensures WriteAll(mem, [c]) == Write(mem, c.dst, c.data)
  {
    hide Write;
    assert [c][1..] == [];
  }

  // ---- one stream ---------------------------------------------------------------

  /** The stream has run the first `n` of `issued` and holds the rest, in order. */
  ghost predicate Ran(q: Queue, issued: seq<MockCopy>, n: nat) {
    n <= |issued| && q.pending == issued[n..] && q.nextSeq == |issued|
  }

  ghost predicate Numbered(issued: seq<MockCopy>) {
    forall i :: 0 <= i < |issued| ==> issued[i].seqNo == i
  }

  /** Draining below a mark runs exactly the copies numbered below it, in order. */
  lemma {:induction false} DrainRan(v: Stream, issued: seq<MockCopy>, n: nat, mark: nat)
    requires Ran(Queue(v.pending, v.nextSeq), issued, n) && Numbered(issued) && mark <= |issued|
    ensures var r := DrainBelow(v, mark); var m := if mark > n then mark else n;
            && Ran(Queue(r.pending, r.nextSeq), issued, m)
            && r.mem == WriteAll(v.mem, issued[n..m])
    decreases |issued| - n
  {
    hide Write;
    if n < mark {
      assert v.pending[0] == issued[n] && v.pending[1..] == issued[n + 1..];
      var t := v.(mem := Write(v.mem, v.pending[0].dst, v.pending[0].data), pending := v.pending[1..]);
      DrainRan(t, issued, n + 1, mark);
      assert issued[n..mark][1..] == issued[n + 1..mark];
    } else {
      assert issued[n..n] == [];
    }
  }

  lemma {:induction false} IssuedNumbered(ops: seq<Op>, s: int)
    ensures Numbered(Issued(ops, s))
  {
    if ops != [] { IssuedNumbered(ops[..|ops| - 1], s); }
  }

  lemma {:induction false} RecordedBounded(ops: seq<Op>, e: int)
    ensures Recorded(ops, e).Some? ==> Recorded(ops, e).value.watermark <= |Issued(ops, Recorded(ops, e).value.stream)|
  {
    if ops != [] { RecordedBounded(ops[..|ops| - 1], e); }
  }

  lemma TargetBounded(before: seq<Op>, op: Op)
    ensures Target(before, op).Some? ==>
              Target(before, op).value.watermark <= |Issued(before, Target(before, op).value.stream)|
  {
    if op.EventSyncOp? { RecordedBounded(before, op.event); }
  }

  // ---- the protocol ------------------------------------------------------------

  /** The device has done what the trace says. */
  ghost predicate Follows(d: Device, mem: seq<Byte>, ops: seq<Op>) {
    && (forall s :: Ran(QueueOf(d, s), Issued(ops, s), Completed(ops, s)))
    && (forall e :: e in d.marks <==> Recorded(ops, e).Some?)
    && (forall e :: e in d.marks ==> d.marks[e] == Recorded(ops, e).value)
    && d.mem == WriteAll(mem, Copies(Executed(ops)))
  }

  /** Synchronizing, by event or by stream, runs the copies up to the target. */
  lemma SyncStep(d: Device, mem: seq<Byte>, before: seq<Op>, op: Op)
    requires Follows(d, mem, before) && (op.EventSyncOp? || op.StreamSyncOp?) && Target(before, op).Some?
    ensures var mark := Target(before, op).value; var n := Completed(before, mark.stream);
            var m := if mark.watermark > n then mark.watermark else n;
            var r := Step(d, op);
            && r.marks == d.marks && (forall s :: s != mark.stream ==> QueueOf(r, s) == QueueOf(d, s))
            && Ran(QueueOf(r, mark.stream), Issued(before, mark.stream), m)
            && n <= m <= |Issued(before, mark.stream)|
            && r.mem == WriteAll(d.mem, Issued(before, mark.stream)[n..m])
  {
    hide DrainBelow, Issued, Completed, Recorded, Executed, WriteAll, Numbered, Ran, StreamSync;
    var mark := Target(before, op).value;
    TargetBounded(before, op);
    IssuedNumbered(before, mark.stream);
    var issued, n := Issued(before, mark.stream), Completed(before, mark.stream);
    assert Ran(QueueOf(d, mark.stream), issued, n);
    RanBounded(QueueOf(d, mark.stream), issued, n);
    if op.EventSyncOp? {
      DrainRan(View(d, mark.stream), issued, n, mark.watermark);
    } else {
      SyncRan(View(d, mark.stream), issued, n);
    }
  }

  lemma RanBounded(q: Queue, issued: seq<MockCopy>, n: nat)
    requires Ran(q, issued, n)
    ensures n <= |issued|
  {
  }

  lemma SyncRan(v: Stream, issued: seq<MockCopy>, n: nat)
    requires Ran(Queue(v.pending, v.nextSeq), issued, n)
    ensures var r := StreamSync(v);
            && Ran(Queue(r.pending, r.nextSeq), issued, |issued|)
            && r.mem == WriteAll(v.mem, issued[n..|issued|])
  {
    hide WriteAll;
    assert issued[n..|issued|] == issued[n..];
    assert issued[|issued|..] == [];
  }

  /** What one more operation adds to the trace. */
  lemma IssuedSnoc(before: seq<Op>, op: Op, s: int)
    ensures Issued(before + [op], s) ==
            if op.CopyOp? && op.stream == s then Issued(before, s) + [MockCopy(op.dst, op.data, |Issued(before, s)|)]
            else Issued(before, s)
  {
    assert (before + [op])[..|before|] == before;
  }

  lemma RecordedSnoc(before: seq<Op>, op: Op, e: int)
    ensures Recorded(before + [op], e) ==
            if op.RecordOp? && op.event == e then Some(Mark(op.stream, |Issued(before, op.stream)|))
            else Recorded(before, e)
  {
    assert (before + [op])[..|before|] == before;
  }

  lemma CompletedSnoc(before: seq<Op>, op: Op, s: int)
    ensures var mark := Target(before, op);
            Completed(before + [op], s) ==
            if mark.Some? && mark.value.stream == s && mark.value.watermark > Completed(before, s)
            then mark.value.watermark
            else Completed(before, s)
  {
    assert (before + [op])[..|before|] == before;
  }

  lemma ExecutedSnoc(before: seq<Op>, op: Op)
    ensures Executed(before + [op]) == Executed(before) + Batch(before, op)
    ensures Target(before, op).None? ==> Executed(before + [op]) == Executed(before)
  {
    assert (before + [op])[..|before|] == before;
  }

  lemma CopiesConcat(a: seq<Issue>, s: int, cs: seq<MockCopy>)
    ensures Copies(a + Tag(s, cs)) == Copies(a) + cs
  {
  }

  lemma EnqueueRan(v: Stream, issued: seq<MockCopy>, n: nat, dst: nat, data: seq<Byte>)
    requires Ran(Queue(v.pending, v.nextSeq), issued, n)
    ensures var r := Enqueue(v, dst, data);
            Ran(Queue(r.pending, r.nextSeq), issued + [MockCopy(dst, data, |issued|)], n)
  {
    assert (issued + [MockCopy(dst, data, |issued|)])[n..] == issued[n..] + [MockCopy(dst, data, |issued|)];
  }

  lemma FollowsCopy(d: Device, mem: seq<Byte>, before: seq<Op>, op: Op)
    requires Follows(d, mem, before) && op.CopyOp?
    ensures Follows(Step(d, op), mem, before + [op])
  {
    hide WriteAll, Copies, Issued, Recorded, Completed, Executed, Ran, DrainBelow, StreamSync, Batch;
    ExecutedSnoc(before, op);
    forall e { RecordedSnoc(before, op, e); }
    var r := Step(d, op);
    forall s ensures Ran(QueueOf(r, s), Issued(before + [op], s), Completed(before + [op], s)) {
      assert Ran(QueueOf(d, s), Issued(before, s), Completed(before, s));
      IssuedSnoc(before, op, s);
      CompletedSnoc(before, op, s);
      EnqueueRan(View(d, s), Issued(before, s), Completed(before, s), op.dst, op.data);
    }
  }

  lemma FollowsRecord(d: Device, mem: seq<Byte>, before: seq<Op>, op: Op)
    requires Follows(d, mem, before) && op.RecordOp?
    ensures Follows(Step(d, op), mem, before + [op])
  {
    hide WriteAll, Copies, Issued, Recorded, Completed, Executed, Ran, DrainBelow, StreamSync, Enqueue, QueueOf, Batch;
    ExecutedSnoc(before, op);
    forall e { RecordedSnoc(before, op, e); }
    assert Ran(QueueOf(d, op.stream), Issued(before, op.stream), Completed(before, op.stream));
    RanCount(QueueOf(d, op.stream), Issued(before, op.stream), Completed(before, op.stream));
    KeepsRunning(d, Step(d, op), before, op);
  }

  lemma RanCount(q: Queue, issued: seq<MockCopy>, n: nat)
    requires Ran(q, issued, n)
    ensures q.nextSeq == |issued|
  {
  }

  lemma KeepsRunning(d: Device, r: Device, before: seq<Op>, op: Op)
    requires (forall s :: Ran(QueueOf(d, s), Issued(before, s), Completed(before, s)))
    requires !op.CopyOp? && Target(before, op).None? && r.queues == d.queues
    ensures forall s :: Ran(QueueOf(r, s), Issued(before + [op], s), Completed(before + [op], s))
  {
    hide Issued, Completed, Ran, Target;
    forall s ensures Ran(QueueOf(r, s), Issued(before + [op], s), Completed(before + [op], s)) {
      assert Ran(QueueOf(d, s), Issued(before, s), Completed(before, s));
      IssuedSnoc(before, op, s);
      CompletedSnoc(before, op, s);
    }
  }

  lemma FollowsIdle(d: Device, mem: seq<Byte>, before: seq<Op>, op: Op)
    requires Follows(d, mem, before) && op.EventSyncOp? && Target(before, op).None?
    ensures Follows(Step(d, op), mem, before + [op])
  {
    hide WriteAll, Copies, Issued, Recorded, Completed, Executed, Ran, DrainBelow, StreamSync, Enqueue, QueueOf, Batch;
    ExecutedSnoc(before, op);
    forall e { RecordedSnoc(before, op, e); }
    KeepsRunning(d, Step(d, op), before, op);
  }

  lemma FollowsSync(d: Device, mem: seq<Byte>, before: seq<Op>, op: Op)
    requires Follows(d, mem, before) && (op.EventSyncOp? || op.StreamSyncOp?) && Target(before, op).Some?
    ensures Follows(Step(d, op), mem, before + [op])
  {
    hide Step, WriteAll, Copies, Issued, Recorded, Completed, Executed, Target, Ran;
    SyncStep(d, mem, before, op);
    ExecutedSnoc(before, op);
    forall e { RecordedSnoc(before, op, e); }
    var r, mark := Step(d, op), Target(before, op).value;
    var s, n := mark.stream, Completed(before, mark.stream);
    var m := if mark.watermark > n then mark.watermark else n;
    forall t ensures Ran(QueueOf(r, t), Issued(before + [op], t), Completed(before + [op], t)) {
      assert Ran(QueueOf(d, t), Issued(before, t), Completed(before, t));
      IssuedSnoc(before, op, t);
      CompletedSnoc(before, op, t);
    }
    var cs := Issued(before, s)[n..m];
    BatchIs(before, op, cs);
    CopiesConcat(Executed(before), s, cs);
    WriteAllConcat(mem, Copies(Executed(before)), cs);
  }

  lemma BatchIs(before: seq<Op>, op: Op, cs: seq<MockCopy>)
    requires Target(before, op).Some?
    requires var mark := Target(before, op).value; var n := Completed(before, mark.stream);
             var m := if mark.watermark > n then mark.watermark else n;
             m <= |Issued(before, mark.stream)| && cs == Issued(before, mark.stream)[n..m]
    ensures Batch(before, op) == Tag(Target(before, op).value.stream, cs)
  {
    hide Target, Issued, Completed;
  }

  /**
   In every run, on any number of streams: each stream has run exactly its first
   Completed(ops, s) copies and holds the rest; each event marks the stream and the number
   of copies issued on it when it was last recorded; and memory holds the copies that ran,
   in the order of the synchronizations that ran them.
   */
  lemma {:induction false} RunFollowsTrace(mem: seq<Byte>, ops: seq<Op>)
    ensures Follows(Run(Start(mem), ops), mem, ops)
  {
    if ops != [] {
      hide Follows, Step;
      var before, op := ops[..|ops| - 1], ops[|ops| - 1];
      assert ops == before + [op];
      RunFollowsTrace(mem, before);
      var d := Run(Start(mem), before);
      if op.CopyOp? {
        FollowsCopy(d, mem, before, op);
      } else if op.RecordOp? {
        FollowsRecord(d, mem, before, op);
      } else if Target(before, op).Some? {
        FollowsSync(d, mem, before, op);
      } else {
        FollowsIdle(d, mem, before, op);
      }
    }
  }

  /** Pending copies carry the consecutive numbers that end just below next_seq. */
  lemma PendingConsecutive(mem: seq<Byte>, ops: seq<Op>, s: int, i: nat)
    requires i < |QueueOf(Run(Start(mem), ops), s).pending|
    ensures var q := QueueOf(Run(Start(mem), ops), s);
            q.pending[i].seqNo == q.nextSeq - |q.pending| + i
  {
    hide Run, QueueOf, Issued, Completed, Executed;
    RunFollowsTrace(mem, ops);
    IssuedNumbered(ops, s);
    assert Ran(QueueOf(Run(Start(mem), ops), s), Issued(ops, s), Completed(ops, s));
  }

  // ---- streams that do not interfere ------------------------------------------------

  /** The copies of one stream among `xs`. */
  function Only(xs: seq<Issue>, s: int): seq<MockCopy> {
    if xs == [] then []
    else Only(xs[..|xs| - 1], s) + if xs[|xs| - 1].stream == s then [xs[|xs| - 1].copy] else []
  }

  lemma OnlySnoc(xs: seq<Issue>, x: Issue, s: int)
    ensures Only(xs + [x], s) == Only(xs, s) + if x.stream == s then [x.copy] else []
  {
    assert (xs + [x])[..|xs|] == xs;
  }

  lemma {:induction false} OnlyTag(xs: seq<Issue>, t: int, cs: seq<MockCopy>, s: int)
    ensures Only(xs + Tag(t, cs), s) == Only(xs, s) + if t == s then cs else []
    decreases |cs|
  {
    if cs == [] {
      assert xs + Tag(t, cs) == xs;
    } else {
      var n := |cs| - 1;
      assert xs + Tag(t, cs) == (xs + Tag(t, cs[..n])) + [Issue(t, cs[n])];
      OnlyTag(xs, t, cs[..n], s);
      OnlySnoc(xs + Tag(t, cs[..n]), Issue(t, cs[n]), s);
      assert cs == cs[..n] + [cs[n]];
    }
  }

  lemma {:induction false} OnlyHas(xs: seq<Issue>, x: Issue)
    ensures x in xs <==> x.copy in Only(xs, x.stream)
  {
    if xs != [] {
      var ys, y := xs[..|xs| - 1], xs[|xs| - 1];
      assert xs == ys + [y];
      OnlyHas(ys, x);
    }
  }

  /** A byte that only one stream's copies cover ends up as that stream alone leaves it. */
  lemma {:induction false} ByteOfStream(mem: seq<Byte>, xs: seq<Issue>, s: int, x: nat)
    requires x < |mem| && forall i :: 0 <= i < |xs| && xs[i].copy.Covers(x) ==> xs[i].stream == s
    ensures WriteAll(mem, Copies(xs))[x] == WriteAll(mem, Only(xs, s))[x]
    decreases |xs|
  {
    if xs != [] {
      var ys, y := xs[..|xs| - 1], xs[|xs| - 1];
      ByteOfStream(mem, ys, s, x);
      assert Copies(xs) == Copies(ys) + [y.copy];
      assert xs == ys + [y];
      OnlySnoc(ys, y, s);
      hide WriteAll, Only, Copies;
      LastCopy(mem, Copies(ys), y.copy, x);
      LastCopy(mem, Only(ys, s), y.copy, x);
      assert y.stream != s ==> Only(ys, s) + [] == Only(ys, s);
    } else {
      assert Copies(xs) == [];
    }
  }

  lemma LastCopy(mem: seq<Byte>, cs: seq<MockCopy>, c: MockCopy, x: nat)
    requires x < |mem|
    ensures WriteAll(mem, cs + [c])[x] ==
            if c.dst + |c.data| <= |mem| && c.Covers(x) then c.data[x - c.dst] else WriteAll(mem, cs)[x]
  {
    hide WriteAll;
    WriteAllConcat(mem, cs, [c]);
    WriteAllOne(WriteAll(mem, cs), c);
    WriteAt(WriteAll(mem, cs), c, x);
  }

  lemma WriteAt(mem: seq<Byte>, c: MockCopy, x: nat)
    requires x < |mem|
    ensures Write(mem, c.dst, c.data)[x] ==
            if c.dst + |c.data| <= |mem| && c.Covers(x) then c.data[x - c.dst] else mem[x]
  {
  }

  lemma {:induction false} ProgramOnly(ops: seq<Op>, s: int)
    ensures Only(Program(ops), s) == Issued(ops, s)
  {
    if ops != [] {
      var before, op := ops[..|ops| - 1], ops[|ops| - 1];
      ProgramOnly(before, s);
      if op.CopyOp? {
        OnlySnoc(Program(before), Issue(op.stream, MockCopy(op.dst, op.data, |Issued(before, op.stream)|)), s);
      }
    }
  }

  lemma {:induction false} CompletedBounded(ops: seq<Op>, s: int)
    ensures Completed(ops, s) <= |Issued(ops, s)|
  {
    if ops != [] {
      var before, op := ops[..|ops| - 1], ops[|ops| - 1];
      CompletedBounded(before, s);
      TargetBounded(before, op);
    }
  }

  /** What has run of each stream is a prefix of what was issued on it. */
  lemma {:induction false} ExecutedOnly(ops: seq<Op>, s: int)
    ensures Completed(ops, s) <= |Issued(ops, s)|
    ensures Only(Executed(ops), s) == Issued(ops, s)[..Completed(ops, s)]
  {
    CompletedBounded(ops, s);
    if ops != [] {
      var before, op := ops[..|ops| - 1], ops[|ops| - 1];
      ExecutedOnly(before, s);
      ExecutedStep(before, op, s);
      hide Target, Batch;
      CopyHasNoTarget(before, op);
      assert Issued(ops, s)[..Completed(before, s)] == Issued(before, s)[..Completed(before, s)];
    }
  }

  lemma CopyHasNoTarget(before: seq<Op>, op: Op)
    ensures op.CopyOp? ==> Target(before, op).None?
  {
  }

  lemma ExecutedStep(before: seq<Op>, op: Op, s: int)
    requires Completed(before, s) <= |Issued(before, s)|
    requires Only(Executed(before), s) == Issued(before, s)[..Completed(before, s)]
    ensures var mark := Target(before, op);
            var m := if mark.Some? && mark.value.stream == s && mark.value.watermark > Completed(before, s)
                     then mark.value.watermark else Completed(before, s);
            m <= |Issued(before, s)| && Only(Executed(before) + Batch(before, op), s) == Issued(before, s)[..m]
  {
    hide Issued, Completed, Executed, Recorded, Only;
    TargetBounded(before, op);
    var mark := Target(before, op);
    if mark.Some? {
      var t, n := mark.value.stream, Completed(before, mark.value.stream);
      if n < mark.value.watermark {
        OnlyTag(Executed(before), t, Issued(before, t)[n..mark.value.watermark], s);
      } else {
        assert Executed(before) + [] == Executed(before);
      }
    } else {
      assert Executed(before) + [] == Executed(before);
    }
  }

  /** No byte is covered by copies of two different streams. */
  ghost predicate Apart(xs: seq<Issue>) {
    forall i, j, x: int :: 0 <= i < |xs| && 0 <= j < |xs| && xs[i].copy.Covers(x) && xs[j].copy.Covers(x) ==>
      xs[i].stream == xs[j].stream
  }

  lemma Owner(xs: seq<Issue>, x: int) returns (s: int)
    requires Apart(xs)
    ensures forall i :: 0 <= i < |xs| && xs[i].copy.Covers(x) ==> xs[i].stream == s
  {
    s := 0;
    if i :| 0 <= i < |xs| && xs[i].copy.Covers(x) { s := xs[i].stream; }
  }

  /**
   Streams that write to disjoint places do not interfere: once every stream is
   synchronized, whatever the interleaving of copies, records and synchronizations, memory
   is what copying immediately, in program order, would have left.
   */
  lemma SyncEqualsImmediate(mem: seq<Byte>, ops: seq<Op>)
    requires Apart(Program(ops)) && forall s :: Completed(ops, s) == |Issued(ops, s)|
    ensures Run(Start(mem), ops).mem == WriteAll(mem, Copies(Program(ops)))
  {
    hide Run, Issued, Completed, Executed, Program, Only, WriteAll, Copies, Apart;
    RunFollowsTrace(mem, ops);
    var a, b := WriteAll(mem, Copies(Executed(ops))), WriteAll(mem, Copies(Program(ops)));
    forall x | 0 <= x < |mem| ensures a[x] == b[x] {
      var s := Owner(Program(ops), x);
      SameStream(ops, s, x);
      ByteOfStream(mem, Executed(ops), s, x);
      ByteOfStream(mem, Program(ops), s, x);
      ExecutedOnly(ops, s);
      ProgramOnly(ops, s);
      assert Issued(ops, s)[..|Issued(ops, s)|] == Issued(ops, s);
    }
  }

  /** What ran was issued, so its owner is the same. */
  lemma SameStream(ops: seq<Op>, s: int, x: int)
    requires forall i :: 0 <= i < |Program(ops)| && Program(ops)[i].copy.Covers(x) ==> Program(ops)[i].stream == s
    ensures forall i :: 0 <= i < |Executed(ops)| && Executed(ops)[i].copy.Covers(x) ==> Executed(ops)[i].stream == s
  {
    hide Program, Executed, Only, Issued, Completed;
    forall i | 0 <= i < |Executed(ops)| && Executed(ops)[i].copy.Covers(x) ensures Executed(ops)[i].stream == s {
      var y := Executed(ops)[i];
      assert y in Executed(ops);
      OnlyHas(Executed(ops), y);
      ExecutedOnly(ops, y.stream);
      ProgramOnly(ops, y.stream);
      assert y.copy in Issued(ops, y.stream)[..Completed(ops, y.stream)];
      OnlyHas(Program(ops), y);
    }
  }

  // ---- a single stream -------------------------------------------------------------

  lemma {:induction false} OneStreamProgram(ops: seq<Op>, s: int)
    requires forall i :: 0 <= i < |ops| && ops[i].CopyOp? ==> ops[i].stream == s
    ensures Copies(Program(ops)) == Issued(ops, s)
    ensures forall i :: 0 <= i < |Program(ops)| ==> Program(ops)[i].stream == s
    ensures forall t :: t != s ==> Issued(ops, t) == []
  {
    if ops != [] {
      var before, op := ops[..|ops| - 1], ops[|ops| - 1];
      OneStreamProgram(before, s);
      assert op.CopyOp? ==> op.stream == s;
      if op.CopyOp? {
        var x := Issue(s, MockCopy(op.dst, op.data, |Issued(before, s)|));
        assert Program(ops) == Program(before) + [x];
        assert Copies(Program(ops)) == Copies(Program(before)) + [x.copy];
      }
    }
  }

  /** On one stream nothing needs to be disjoint: synchronizing it leaves the memory of immediate copying. */
  lemma OneStreamSync(mem: seq<Byte>, ops: seq<Op>, s: int)
    requires forall i :: 0 <= i < |ops| && ops[i].CopyOp? ==> ops[i].stream == s
    ensures Run(Start(mem), ops + [StreamSyncOp(s)]).mem == WriteAll(mem, Issued(ops, s))
  {
    var all := ops + [StreamSyncOp(s)];
    hide Run, WriteAll, Copies, Program, Issued, Completed;
    OneStreamProgram(all, s);
    IssuedSnoc(ops, StreamSyncOp(s), s);
    forall t ensures Completed(all, t) == |Issued(all, t)| {
      CompletedSnoc(ops, StreamSyncOp(s), t);
      CompletedBounded(all, t);
      CompletedBounded(ops, t);
    }
    SyncEqualsImmediate(mem, all);
  }
}
