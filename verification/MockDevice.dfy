/** The mock device of dee.cpp/src/cuda_backend_mock.cpp: streams, events and device memory updated in place. */
module MockDevices {
  import opened Memory
  import opened MockDeviceSpec

  class MockStream {
    var pending: seq<MockCopy>
    var nextSeq: nat

    constructor ()
      ensures pending == [] && nextSeq == 0
    {
      pending, nextSeq := [], 0;
    }
  }

  class MockEvent {
    var stream: MockStream?
    var watermark: nat

    constructor ()
      ensures stream == null && watermark == 0
    {
      stream, watermark := null, 0;
    }
  }

  ghost predicate Fits(pending: seq<MockCopy>, length: nat) {
    forall i :: 0 <= i < |pending| ==> pending[i].dst + |pending[i].data| <= length
  }

  class MockCudaDevice {
    const mem: array<Byte>

    constructor (bytes: nat)
      ensures fresh(mem) && mem.Length == bytes
    {
      mem := new Byte[bytes];
    }

    /** What this device and one of its streams look like together. */
    ghost function View(s: MockStream): Stream
      reads s, mem
    {
      Stream(mem[..], s.pending, s.nextSeq)
    }

    method EventRecord(e: MockEvent, s: MockStream)
      modifies e
      ensures e.stream == s && e.watermark == s.nextSeq
    {
      e.stream := s;
      e.watermark := s.nextSeq;
    }

    method EventSynchronize(e: MockEvent)
      requires e.stream != null ==> Fits(e.stream.pending, mem.Length)
      modifies e.stream, mem
      ensures e.stream != null ==> View(e.stream) == DrainBelow(old(View(e.stream)), e.watermark)
      ensures e.stream == null ==> mem[..] == old(mem[..])
    {
      hide Write;
      var s := e.stream;
      if s == null { return; }
      while s.pending != [] && s.pending[0].seqNo < e.watermark
        invariant Fits(s.pending, mem.Length)
        invariant DrainBelow(View(s), e.watermark) == DrainBelow(old(View(s)), e.watermark)
        decreases |s.pending|
      {
        var c := s.pending[0];
        Copy(mem, c.dst, c.data);
        s.pending := s.pending[1..];
      }
    }

    method MemcpyAsync(dst: nat, data: seq<Byte>, s: MockStream)
      modifies s
      ensures View(s) == Enqueue(old(View(s)), dst, data)
    {
      s.pending := s.pending + [MockCopy(dst, data, s.nextSeq)];
      s.nextSeq := s.nextSeq + 1;
    }

    method StreamSynchronize(s: MockStream)
      requires Fits(s.pending, mem.Length)
      modifies s, mem
      ensures View(s) == StreamSync(old(View(s)))
    {
      hide Write;
      for i := 0 to |s.pending|
        invariant s.pending == old(s.pending) && s.nextSeq == old(s.nextSeq)
        invariant WriteAll(mem[..], s.pending[i..]) == WriteAll(old(mem[..]), s.pending)
      {
        Copy(mem, s.pending[i].dst, s.pending[i].data);
        assert s.pending[i..][1..] == s.pending[i + 1..];
      }
      s.pending := [];
    }
  }
}
