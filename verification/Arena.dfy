/** The arena of dee.cpp/src/vram_cache.cpp with its fields updated in place. */
module Arenas {
  import opened Wrappers
  import opened Extents
  import opened ArenaSpec
  import opened Memory

  class Arena {
    const base: array<Byte>
    const cap: SizeT
    var used: SizeT
    var high: SizeT
    var free: seq<Extent>

    ghost function State(): ArenaState
      reads this
    {
      ArenaState(cap, used, high, free)
    }

    constructor (capacity: SizeT)
      ensures State() == Init(capacity)
      ensures fresh(base) && base.Length == capacity
    {
      base := new Byte[capacity];
      cap := capacity;
      used, high, free := 0, 0, [];
    }

    method Alloc(bytes: SizeT) returns (off: Option<nat>)
      modifies this
      ensures (State(), off) == ArenaSpec.Alloc(old(State()), bytes)
    {
      if bytes == 0 { return None; }
      var i := 0;
      while i < |free|
        invariant 0 <= i <= |free| && free == old(free)
        invariant unchanged(this)
        invariant FirstFit(free, bytes) == i + FirstFit(free[i..], bytes)
      {
        if free[i].size >= bytes {
          off := Some(free[i].off);
          free := TakeFrom(free, i, bytes);
          used := Wrap(used + bytes);
          return;
        }
        assert free[i..][1..] == free[i + 1..];
        i := i + 1;
      }
      if Wrap(high + bytes) <= cap {
        off := Some(high);
        high := Wrap(high + bytes);
        used := Wrap(used + bytes);
        return;
      }
      return None;
    }

    method Free(offset: nat, bytes: nat)
      modifies this
      ensures State() == ArenaSpec.Free(old(State()), offset, bytes)
    {
      if offset == SIZE_LIMIT - 1 || bytes == 0 { return; }
      var h := Extent(offset, bytes);
      var i := LowerBound(free, offset);
      free := free[..i] + [h] + free[i..];
      used := Wrap(used - bytes);
      MergeNeighbours();
    }

    method MergeNeighbours()
      modifies this`free
      ensures free == Coalesce(old(free))
    {
      if |free| < 2 {
        if |free| == 1 { assert free[..0] == []; }
        return;
      }
      var merged := [free[0]];
      assert free[..1][..0] == [];
      for i := 1 to |free|
        invariant free == old(free)
        invariant merged != [] && merged == Coalesce(free[..i])
      {
        var n := |merged| - 1;
        if merged[n].End() == free[i].off {
          merged := merged[n := Extent(merged[n].off, merged[n].size + free[i].size)];
        } else {
          merged := merged + [free[i]];
        }
        assert free[..i + 1][..i] == free[..i];
      }
      assert free[..|free|] == free;
      free := merged;
    }
  }
}
