/** Byte memory and block copies into it. */
module Memory {
  import opened Extents

  type Byte = x: int | 0 <= x < 256

  /** std::memcpy of `data` to offset `dst`; copies that leave the memory are not modelled. */
  function Write(mem: seq<Byte>, dst: nat, data: seq<Byte>): (r: seq<Byte>)
    ensures |r| == |mem|
  {
    if dst + |data| <= |mem| then mem[..dst] + data + mem[dst + |data|..] else mem
  }

  predicate Holds(mem: seq<Byte>, off: nat, data: seq<Byte>) {
    off + |data| <= |mem| && mem[off..off + |data|] == data
  }

  lemma WriteHolds(mem: seq<Byte>, dst: nat, data: seq<Byte>)
    requires dst + |data| <= |mem|
    ensures Holds(Write(mem, dst, data), dst, data)
  {
  }

  /** The part of `data` that lies in a block of `size` bytes it is copied to. */
  function Fit(data: seq<Byte>, size: nat): (r: seq<Byte>)
    ensures |r| <= size && |r| <= |data|
  {
    if |data| <= size then data else data[..size]
  }

  lemma HoldsFit(mem: seq<Byte>, off: nat, data: seq<Byte>, size: nat)
    requires Holds(mem, off, data)
    ensures Holds(mem, off, Fit(data, size))
  {
    if size < |data| { assert mem[off..off + size] == mem[off..off + |data|][..size]; }
  }

  /** A copy leaves every disjoint range as it was. */
  lemma WriteElsewhere(mem: seq<Byte>, dst: nat, data: seq<Byte>, off: nat, other: seq<Byte>)
    requires Holds(mem, off, other) && Disjoint(Extent(dst, |data|), Extent(off, |other|))
    ensures Holds(Write(mem, dst, data), off, other)
  {
    var r := Write(mem, dst, data);
    forall i | 0 <= i < |other| ensures r[off + i] == other[i] {
      assert mem[off..off + |other|][i] == mem[off + i];
    }
    assert r[off..off + |other|] == other;
  }

  /** In-place copy into an array of bytes. */
  method Copy(mem: array<Byte>, dst: nat, data: seq<Byte>)
    requires dst + |data| <= mem.Length
    modifies mem
    ensures mem[..] == Write(old(mem[..]), dst, data)
  {
    for i := 0 to |data|
      invariant forall j :: 0 <= j < i ==> mem[dst + j] == data[j]
      invariant forall j :: 0 <= j < mem.Length && !(dst <= j < dst + i) ==> mem[j] == old(mem[j])
    {
      mem[dst + i] := data[i];
    }
  }
}
