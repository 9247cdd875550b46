/**
 The arena of dee.cpp/src/vram_cache.cpp: a fixed region served by a first-fit,
 coalescing free list and, above it, a bump pointer. `Alloc` and `Free` specify one
 call each on values; module Arenas runs them in place. Sizes are 64-bit `size_t`
 values, so the bump test is taken modulo 2^64, as the code computes it.
 */
module ArenaSpec {
  import opened Wrappers
  import opened Extents

  const SIZE_LIMIT: nat := 0x1_0000_0000_0000_0000

  type SizeT = x: int | 0 <= x < SIZE_LIMIT

  function Wrap(x: int): SizeT { if 0 <= x < SIZE_LIMIT then x else x % SIZE_LIMIT }

  datatype ArenaState = ArenaState(cap: SizeT, used: SizeT, high: SizeT, holes: seq<Extent>) {
    function FreeSpace(): SizeT { Wrap(cap - used) }
  }

  function Init(cap: SizeT): ArenaState { ArenaState(cap, 0, 0, []) }

  // ---- one call ----------------------------------------------------------

  function FirstFit(holes: seq<Extent>, bytes: nat): (i: nat)
    ensures i <= |holes|
    ensures forall j :: 0 <= j < i ==> holes[j].size < bytes
    ensures i < |holes| ==> holes[i].size >= bytes
  {
    if holes == [] || holes[0].size >= bytes then 0 else 1 + FirstFit(holes[1..], bytes)
  }

  /** What is left of the free list when `bytes` are cut from the front of hole `i`. */
  function TakeFrom(holes: seq<Extent>, i: nat, bytes: nat): seq<Extent>
    requires i < |holes| && bytes <= holes[i].size
  {
    if holes[i].size == bytes then holes[..i] + holes[i + 1..]
    else holes[i := Extent(holes[i].off + bytes, holes[i].size - bytes)]
  }

  function Alloc(a: ArenaState, bytes: SizeT): (ArenaState, Option<nat>) {
    if bytes == 0 then (a, None)
    else
      var i := FirstFit(a.holes, bytes);
      if i < |a.holes| then
        (a.(used := Wrap(a.used + bytes), holes := TakeFrom(a.holes, i, bytes)), Some(a.holes[i].off))
      else if Wrap(a.high + bytes) <= a.cap then
        (a.(used := Wrap(a.used + bytes), high := Wrap(a.high + bytes)), Some(a.high))
      else (a, None)
  }

  /** The position std::lower_bound finds: the first hole not starting before `off`. */
  function LowerBound(holes: seq<Extent>, off: nat): (i: nat)
    ensures i <= |holes|
    ensures forall j :: 0 <= j < i ==> holes[j].off < off
    ensures i < |holes| ==> holes[i].off >= off
  {
    if holes == [] || holes[0].off >= off then 0 else 1 + LowerBound(holes[1..], off)
  }

  function Insert(holes: seq<Extent>, h: Extent): seq<Extent> {
    var i := LowerBound(holes, h.off);
    holes[..i] + [h] + holes[i..]
  }

  /** Append a hole, or grow the last one when the two touch. */
  function Push(merged: seq<Extent>, h: Extent): seq<Extent> {
    var n := |merged| - 1;
    if n >= 0 && merged[n].End() == h.off then merged[n := Extent(merged[n].off, merged[n].size + h.size)]
    else merged + [h]
  }

  function Coalesce(holes: seq<Extent>): seq<Extent> {
    if holes == [] then [] else Push(Coalesce(holes[..|holes| - 1]), holes[|holes| - 1])
  }

  function Free(a: ArenaState, off: nat, bytes: nat): ArenaState {
    if off == SIZE_LIMIT - 1 || bytes == 0 then a
    else a.(used := Wrap(a.used - bytes), holes := Coalesce(Insert(a.holes, Extent(off, bytes))))
  }

  // ---- tiling --------------------------------------------------------------

  ghost predicate NonEmpty(holes: seq<Extent>) {
    forall i :: 0 <= i < |holes| ==> holes[i].size > 0
  }

  /** Sorted and pairwise non-overlapping; neighbours may touch. */
  ghost predicate Ordered(holes: seq<Extent>) {
    forall i, j :: 0 <= i < j < |holes| ==> holes[i].End() <= holes[j].off
  }

  /** Sorted and never adjacent. */
  ghost predicate Separated(holes: seq<Extent>) {
    forall i, j :: 0 <= i < j < |holes| ==> holes[i].End() < holes[j].off
  }

  ghost predicate Below(holes: seq<Extent>, bound: nat) {
    forall i :: 0 <= i < |holes| ==> holes[i].End() <= bound
  }

  ghost predicate PairwiseDisjoint(live: set<Extent>) {
    forall a, b :: a in live && b in live && a != b ==> Disjoint(a, b)
  }

  ghost predicate AllBelow(live: set<Extent>, bound: nat) {
    forall e :: e in live ==> e.size > 0 && e.End() <= bound
  }

  /** Every byte below `high` lies in a hole or in a live block, never in both. */
  ghost predicate Covers(holes: seq<Extent>, live: set<Extent>, high: nat) {
    forall x :: 0 <= x < high ==> (InSomeOf(holes, x) <==> !InSome(live, x))
  }

  /** Live blocks and holes tile [0, high), and the byte counts say so. */
  ghost predicate Tiles(a: ArenaState, live: set<Extent>) {
    && a.high <= a.cap
    && NonEmpty(a.holes) && Separated(a.holes) && Below(a.holes, a.high)
    && PairwiseDisjoint(live) && AllBelow(live, a.high)
    && Covers(a.holes, live, a.high)
    && a.used == TotalSize(live)
    && a.used + SumSizes(a.holes) == a.high
  }

  lemma TakeFromOrder(holes: seq<Extent>, i: nat, bytes: nat, bound: nat)
    requires NonEmpty(holes) && Separated(holes) && Below(holes, bound)
    requires i < |holes| && 0 < bytes <= holes[i].size
    ensures NonEmpty(TakeFrom(holes, i, bytes)) && Separated(TakeFrom(holes, i, bytes))
    ensures Below(TakeFrom(holes, i, bytes), bound)
  {
    var r := TakeFrom(holes, i, bytes);
    if holes[i].size == bytes {
      DropOrder(holes, i, bound);
    } else {
      ShrinkOrder(holes, i, r[i], bound);
    }
  }

  lemma DropOrder(holes: seq<Extent>, i: nat, bound: nat)
    requires NonEmpty(holes) && Separated(holes) && Below(holes, bound) && i < |holes|
    ensures var r := holes[..i] + holes[i + 1..]; NonEmpty(r) && Separated(r) && Below(r, bound)
  {
    var r := holes[..i] + holes[i + 1..];
    forall j | 0 <= j < |r| ensures r[j].size > 0 && r[j].End() <= bound {
      assert r[j] == holes[if j < i then j else j + 1];
    }
    forall j, k | 0 <= j < k < |r| ensures r[j].End() < r[k].off {
      assert r[j] == holes[if j < i then j else j + 1] && r[k] == holes[if k < i then k else k + 1];
    }
  }

  /** A hole may shrink in place. */
  lemma ShrinkOrder(holes: seq<Extent>, i: nat, e: Extent, bound: nat)
    requires NonEmpty(holes) && Separated(holes) && Below(holes, bound) && i < |holes|
    requires e.size > 0 && holes[i].off <= e.off && e.End() == holes[i].End()
    ensures var r := holes[i := e]; NonEmpty(r) && Separated(r) && Below(r, bound)
  {
    var r := holes[i := e];
    forall j, k | 0 <= j < k < |r| ensures r[j].End() < r[k].off {
      assert holes[j].End() < holes[k].off;
    }
  }

  lemma TakeFromSum(holes: seq<Extent>, i: nat, bytes: nat)
    requires i < |holes| && 0 < bytes <= holes[i].size
    ensures SumSizes(TakeFrom(holes, i, bytes)) + bytes == SumSizes(holes)
  {
    SumSizesAt(holes, i);
    if holes[i].size == bytes {
      SumSizesConcat(holes[..i], holes[i + 1..]);
    } else {
      var rest := TakeFrom(holes, i, bytes);
      SumSizesAt(rest, i);
      assert rest[..i] == holes[..i];
      assert rest[i + 1..] == holes[i + 1..];
    }
  }

  lemma OnlyHoleHas(holes: seq<Extent>, i: nat, j: nat, x: int)
    requires NonEmpty(holes) && Separated(holes) && i < |holes| && j < |holes|
    requires holes[i].Has(x) && holes[j].Has(x)
    ensures i == j
  {
  }

  lemma TakeAllCells(holes: seq<Extent>, i: nat, x: int)
    requires NonEmpty(holes) && Separated(holes) && i < |holes|
    ensures InSomeOf(holes[..i] + holes[i + 1..], x) <==> InSomeOf(holes, x) && !holes[i].Has(x)
  {
    hide Separated, NonEmpty;
    var rest := holes[..i] + holes[i + 1..];
    if InSomeOf(rest, x) {
      var j :| 0 <= j < |rest| && rest[j].Has(x);
      var j' := if j < i then j else j + 1;
      assert rest[j] == holes[j'] && holes[j'] in holes;
      if holes[i].Has(x) { OnlyHoleHas(holes, i, j', x); }
    }
    if InSomeOf(holes, x) && !holes[i].Has(x) {
      var j :| 0 <= j < |holes| && holes[j].Has(x);
      var j' := if j < i then j else j - 1;
      assert rest[j'] == holes[j] && rest[j'] in rest;
    }
  }

  lemma TakeSomeCells(holes: seq<Extent>, i: nat, bytes: nat, x: int)
    requires NonEmpty(holes) && Separated(holes) && i < |holes| && 0 < bytes < holes[i].size
    ensures InSomeOf(TakeFrom(holes, i, bytes), x) <==>
            InSomeOf(holes, x) && !Extent(holes[i].off, bytes).Has(x)
  {
    hide Separated, NonEmpty;
    var rest := TakeFrom(holes, i, bytes);
    if InSomeOf(rest, x) {
      var j :| 0 <= j < |rest| && rest[j].Has(x);
      assert holes[j].Has(x) && holes[j] in holes;
      if holes[i].Has(x) { OnlyHoleHas(holes, i, j, x); }
    }
    if InSomeOf(holes, x) && !Extent(holes[i].off, bytes).Has(x) {
      var j :| 0 <= j < |holes| && holes[j].Has(x);
      assert rest[j].Has(x) && rest[j] in rest;
    }
  }

  lemma TakeFromCells(holes: seq<Extent>, i: nat, bytes: nat, x: int)
    requires NonEmpty(holes) && Separated(holes) && i < |holes| && 0 < bytes <= holes[i].size
    ensures InSomeOf(TakeFrom(holes, i, bytes), x) <==>
            InSomeOf(holes, x) && !Extent(holes[i].off, bytes).Has(x)
  {
    hide InSomeOf, Separated;
    if holes[i].size == bytes {
      TakeAllCells(holes, i, x);
      assert holes[i] == Extent(holes[i].off, bytes);
    } else {
      TakeSomeCells(holes, i, bytes, x);
    }
  }

  lemma AddCells(live: set<Extent>, e: Extent, x: int)
    ensures InSome(live + {e}, x) <==> InSome(live, x) || e.Has(x)
  {
    if InSome(live, x) {
      var b :| b in live && b.Has(x);
      assert b in live + {e};
    }
    if e.Has(x) { assert e in live + {e}; }
  }

  /** A block none of whose bytes is live can join the live blocks. */
  lemma AddLive(live: set<Extent>, e: Extent, bound: nat)
    requires PairwiseDisjoint(live) && AllBelow(live, bound)
    requires e.size > 0 && e.End() <= bound
    requires forall x :: e.Has(x) ==> !InSome(live, x)
    ensures e !in live && (forall b :: b in live ==> Disjoint(e, b))
    ensures PairwiseDisjoint(live + {e}) && AllBelow(live + {e}, bound)
    ensures TotalSize(live + {e}) == TotalSize(live) + e.size
  {
    forall b | b in live ensures Disjoint(e, b) {
      assert forall x :: b.Has(x) ==> InSome(live, x);
      DisjointByBytes(e, b);
    }
    TotalSizeAdd(live, e);
  }

  /** What a successful allocation of block `e` promises the owner of the live blocks. */
  ghost predicate Grown(a: ArenaState, live: set<Extent>, e: Extent) {
    && e.size > 0 && e !in live
    && (forall b :: b in live ==> Disjoint(e, b))
    && Tiles(a, live + {e})
  }

  lemma AllocFromHole(a: ArenaState, live: set<Extent>, i: nat, bytes: SizeT)
    requires Tiles(a, live) && i < |a.holes| && 0 < bytes <= a.holes[i].size
    ensures a.used + bytes <= a.high
    ensures Grown(a.(used := a.used + bytes, holes := TakeFrom(a.holes, i, bytes)), live,
                  Extent(a.holes[i].off, bytes))
  {
    var e := Extent(a.holes[i].off, bytes);
    TakeFromOrder(a.holes, i, bytes, a.high);
    TakeFromSum(a.holes, i, bytes);
    forall x | e.Has(x) ensures !InSome(live, x) {
      assert a.holes[i] in a.holes && a.holes[i].Has(x);
    }
    AddLive(live, e, a.high);
    forall x | 0 <= x < a.high
      ensures InSomeOf(TakeFrom(a.holes, i, bytes), x) <==> !InSome(live + {e}, x)
    {
      TakeFromCells(a.holes, i, bytes, x);
      AddCells(live, e, x);
    }
  }

  lemma AllocFromBump(a: ArenaState, live: set<Extent>, bytes: SizeT)
    requires Tiles(a, live) && 0 < bytes && a.high + bytes <= a.cap
    ensures a.used + bytes <= a.high + bytes
    ensures Grown(a.(used := a.used + bytes, high := a.high + bytes), live, Extent(a.high, bytes))
  {
    var e := Extent(a.high, bytes);
    forall x | e.Has(x) ensures !InSome(live, x) { }
    AddLive(live, e, a.high + bytes);
    forall x | 0 <= x < a.high + bytes
      ensures InSomeOf(a.holes, x) <==> !InSome(live + {e}, x)
    {
      AddCells(live, e, x);
    }
  }

  /** Without wrap-around, `Alloc` fails with the arena unchanged or yields a fresh, disjoint block. */
  lemma AllocTiles(a: ArenaState, live: set<Extent>, bytes: SizeT)
    requires Tiles(a, live) && a.high + bytes < SIZE_LIMIT
    ensures Alloc(a, bytes).0.cap == a.cap
    ensures Alloc(a, bytes).1.None? ==> Alloc(a, bytes).0 == a
    ensures Alloc(a, bytes).1.Some? ==>
              Grown(Alloc(a, bytes).0, live, Extent(Alloc(a, bytes).1.value, bytes))
  {
    assert a.high <= a.cap;
    hide Tiles, Grown;
    if bytes > 0 {
      var i := FirstFit(a.holes, bytes);
      if i < |a.holes| {
        AllocFromHole(a, live, i, bytes);
      } else if a.high + bytes <= a.cap {
        AllocFromBump(a, live, bytes);
      }
    }
  }

  lemma SpliceOrder(holes: seq<Extent>, e: Extent, p: nat, bound: nat)
    requires NonEmpty(holes) && Separated(holes) && Below(holes, bound)
    requires e.size > 0 && e.End() <= bound && p <= |holes|
    requires forall j :: 0 <= j < p ==> holes[j].End() <= e.off
    requires forall j :: p <= j < |holes| ==> e.End() <= holes[j].off
    ensures var r := holes[..p] + [e] + holes[p..]; NonEmpty(r) && Ordered(r) && Below(r, bound)
  {
    var r := holes[..p] + [e] + holes[p..];
    forall i, j | 0 <= i < j < |r| ensures r[i].End() <= r[j].off {
      if i == p {
        assert r[j] == holes[j - 1];
      } else if j == p {
        assert r[i] == holes[i];
      } else {
        var i', j' := if i < p then i else i - 1, if j < p then j else j - 1;
        assert r[i] == holes[i'] && r[j] == holes[j'];
      }
    }
  }

  lemma AllocSearches(a: ArenaState, bytes: SizeT)
    requires a.high + bytes < SIZE_LIMIT
    ensures Alloc(a, bytes).1.None? <==>
            bytes == 0 || ((forall h :: h in a.holes ==> h.size < bytes) && a.high + bytes > a.cap)
  {
    var i := FirstFit(a.holes, bytes);
    if i < |a.holes| { assert a.holes[i] in a.holes; }
  }

  /** `bytes` consecutive bytes below `high` that no live block touches. */
  ghost predicate Window(live: set<Extent>, high: nat, off: nat, bytes: nat) {
    off + bytes <= high && forall e :: e in live ==> Disjoint(Extent(off, bytes), e)
  }

  ghost predicate HasWindow(live: set<Extent>, high: nat, bytes: nat) {
    exists off :: Window(live, high, off, bytes)
  }

  /** Coalescing at work: consecutive free bytes always lie in one hole. */
  lemma {:induction false} WindowInHole(a: ArenaState, live: set<Extent>, off: nat, bytes: nat) returns (h: Extent)
    requires Tiles(a, live) && 0 < bytes && Window(live, a.high, off, bytes)
    ensures h in a.holes && h.off <= off && off + bytes <= h.End()
    decreases bytes
  {
    var x := off + bytes - 1;
    assert !InSome(live, x);
    assert InSomeOf(a.holes, x);
    h :| h in a.holes && h.Has(x);
    if bytes > 1 {
      assert forall e :: e in live ==> Disjoint(Extent(off, bytes - 1), e);
      var g := WindowInHole(a, live, off, bytes - 1);
      if g != h { NeighboursApart(a.holes, g, h, x); }
    }
  }

  lemma NeighboursApart(holes: seq<Extent>, g: Extent, h: Extent, x: int)
    requires NonEmpty(holes) && Separated(holes) && g in holes && h in holes && g != h
    requires g.Has(x - 1)
    ensures !h.Has(x)
  {
    var i :| 0 <= i < |holes| && holes[i] == g;
    var j :| 0 <= j < |holes| && holes[j] == h;
  }

  /**
   An allocation fails exactly if it asks for nothing, or if it neither fits above the
   high-water mark nor finds that many consecutive free bytes among the live blocks.
   */
  lemma AllocFailsIff(a: ArenaState, live: set<Extent>, bytes: SizeT)
    requires Tiles(a, live) && a.high + bytes < SIZE_LIMIT
    ensures Alloc(a, bytes).1.None? <==>
            bytes == 0 || (a.high + bytes > a.cap && !HasWindow(live, a.high, bytes))
  {
    AllocSearches(a, bytes);
    hide Alloc;
    if bytes > 0 && HasWindow(live, a.high, bytes) {
      var off :| Window(live, a.high, off, bytes);
      var h := WindowInHole(a, live, off, bytes);
      assert h.size >= bytes;
    }
    if h :| h in a.holes && h.size >= bytes {
      HoleIsWindow(a, live, h, bytes);
    }
  }

  lemma HoleIsWindow(a: ArenaState, live: set<Extent>, h: Extent, bytes: nat)
    requires Tiles(a, live) && h in a.holes && bytes <= h.size
    ensures Window(live, a.high, h.off, bytes)
  {
    forall e | e in live ensures Disjoint(Extent(h.off, bytes), e) {
      HoleAvoids(a, live, h, e);
    }
  }

  lemma HoleAvoids(a: ArenaState, live: set<Extent>, h: Extent, e: Extent)
    requires Tiles(a, live) && h in a.holes && e in live
    ensures Disjoint(h, e)
  {
    HolesAvoidLive(a, live, e);
  }

  /** First fit: the block comes from the lowest hole that can take it, and from the bump region only if none can. */
  lemma AllocTakesLowest(a: ArenaState, live: set<Extent>, bytes: SizeT, h: Extent)
    requires Tiles(a, live) && Alloc(a, bytes).1.Some? && h in a.holes && h.size >= bytes
    ensures Alloc(a, bytes).1.value <= h.off && Alloc(a, bytes).0.high == a.high
  {
    var i := FirstFit(a.holes, bytes);
    var j :| 0 <= j < |a.holes| && a.holes[j] == h;
    assert i <= j;
  }

  /** If no hole can take it, the block is cut from the bump region, right at the high-water mark. */
  lemma AllocBumps(a: ArenaState, live: set<Extent>, bytes: SizeT)
    requires Tiles(a, live) && a.high + bytes < SIZE_LIMIT && Alloc(a, bytes).1.Some?
    requires forall h :: h in a.holes ==> h.size < bytes
    ensures Alloc(a, bytes).1 == Some(a.high)
    ensures Alloc(a, bytes).0.high == a.high + bytes && Alloc(a, bytes).0.holes == a.holes
  {
    hide Tiles;
    assert forall i :: 0 <= i < |a.holes| ==> a.holes[i] in a.holes;
  }

  /** Freeing nothing, or the failure code of an allocation, does nothing. */
  lemma FreeNothing(a: ArenaState, off: nat, bytes: nat)
    requires bytes == 0 || off == 0xffff_ffff_ffff_ffff
    ensures Free(a, off, bytes) == a
  {
  }

  lemma InsertOrder(holes: seq<Extent>, e: Extent, bound: nat)
    requires NonEmpty(holes) && Separated(holes) && Below(holes, bound)
    requires e.size > 0 && e.End() <= bound
    requires forall i :: 0 <= i < |holes| ==> Disjoint(holes[i], e)
    ensures NonEmpty(Insert(holes, e)) && Ordered(Insert(holes, e)) && Below(Insert(holes, e), bound)
  {
    var p := LowerBound(holes, e.off);
    forall j | p <= j < |holes| ensures e.End() <= holes[j].off {
      assert holes[p].off <= holes[j].off;
    }
    SpliceOrder(holes, e, p, bound);
  }

  lemma InsertCells(holes: seq<Extent>, e: Extent, x: int)
    ensures InSomeOf(Insert(holes, e), x) <==> InSomeOf(holes, x) || e.Has(x)
  {
    var p := LowerBound(holes, e.off);
    assert holes == holes[..p] + holes[p..];
    assert forall h :: h in Insert(holes, e) <==> h in holes || h == e;
  }

  lemma InsertSum(holes: seq<Extent>, e: Extent)
    ensures SumSizes(Insert(holes, e)) == SumSizes(holes) + e.size
  {
    var p := LowerBound(holes, e.off);
    assert holes == holes[..p] + holes[p..];
    SumSizesConcat(holes[..p], holes[p..]);
    var r := Insert(holes, e);
    SumSizesAt(r, p);
    assert r[..p] == holes[..p] && r[p + 1..] == holes[p..];
  }

  /** `m` is a coalesced form of holes whose last byte is just before `end`. */
  ghost predicate Coalesced(m: seq<Extent>, end: nat) {
    && NonEmpty(m) && Separated(m) && Below(m, end)
    && m != [] && m[|m| - 1].End() == end
  }

  lemma PushOrder(m: seq<Extent>, end: nat, h: Extent)
    requires Coalesced(m, end) && end <= h.off && h.size > 0
    ensures Coalesced(Push(m, h), h.End())
  {
  }

  lemma PushCells(m: seq<Extent>, end: nat, h: Extent, x: int)
    requires Coalesced(m, end)
    ensures InSomeOf(Push(m, h), x) <==> InSomeOf(m, x) || h.Has(x)
  {
    var n := |m| - 1;
    var r := Push(m, h);
    assert m == m[..n] + [m[n]];
    if m[n].End() == h.off {
      assert r == m[..n] + [Extent(m[n].off, m[n].size + h.size)];
      assert forall g :: g in r <==> g in m[..n] || g == r[n];
      assert forall g :: g in m <==> g in m[..n] || g == m[n];
      assert r[n].Has(x) <==> m[n].Has(x) || h.Has(x);
    } else {
      assert forall g :: g in r <==> g in m || g == h;
    }
  }

  lemma PushSum(m: seq<Extent>, h: Extent)
    ensures SumSizes(Push(m, h)) == SumSizes(m) + h.size
  {
    var n := |m| - 1;
    var r := Push(m, h);
    if n >= 0 && m[n].End() == h.off {
      assert r[..n] == m[..n];
    } else {
      assert r[..n + 1] == m;
    }
  }

  lemma {:induction false} CoalesceOrder(holes: seq<Extent>)
    requires holes != [] && NonEmpty(holes) && Ordered(holes)
    ensures Coalesced(Coalesce(holes), holes[|holes| - 1].End())
  {
    var n := |holes| - 1;
    if n == 0 {
      assert holes[..0] == [];
    } else {
      CoalesceOrder(holes[..n]);
      PushOrder(Coalesce(holes[..n]), holes[n - 1].End(), holes[n]);
    }
  }

  /** Merging neighbours changes neither which bytes are free ... */
  lemma {:induction false} CoalesceCells(holes: seq<Extent>, x: int)
    requires NonEmpty(holes) && Ordered(holes)
    ensures InSomeOf(Coalesce(holes), x) <==> InSomeOf(holes, x)
  {
    var n := |holes| - 1;
    if n >= 0 {
      CoalesceCells(holes[..n], x);
      SnocCells(holes, x);
      if n > 0 {
        CoalesceOrder(holes[..n]);
        hide Push, Ordered, NonEmpty, InSomeOf, Coalesced;
        PushCells(Coalesce(holes[..n]), holes[n - 1].End(), holes[n], x);
      } else {
        assert Coalesce(holes) == [holes[0]];
      }
    }
  }

  lemma SnocCells(holes: seq<Extent>, x: int)
    requires holes != []
    ensures InSomeOf(holes, x) <==> InSomeOf(holes[..|holes| - 1], x) || holes[|holes| - 1].Has(x)
  {
    var n := |holes| - 1;
    assert holes == holes[..n] + [holes[n]];
    assert forall h :: h in holes <==> h in holes[..n] || h == holes[n];
  }

  /** ... nor how many there are. */
  lemma {:induction false} CoalesceSum(holes: seq<Extent>)
    ensures SumSizes(Coalesce(holes)) == SumSizes(holes)
  {
    var n := |holes| - 1;
    if n >= 0 {
      CoalesceSum(holes[..n]);
      PushSum(Coalesce(holes[..n]), holes[n]);
    }
  }

  lemma RemoveCells(live: set<Extent>, e: Extent, x: int)
    requires PairwiseDisjoint(live) && e in live
    ensures InSome(live - {e}, x) <==> InSome(live, x) && !e.Has(x)
  {
    if InSome(live - {e}, x) {
      var b :| b in live - {e} && b.Has(x);
      assert Disjoint(b, e);
      assert b in live;
    }
    if InSome(live, x) && !e.Has(x) {
      var b :| b in live && b.Has(x);
      assert b in live - {e};
    }
  }

  lemma HolesAvoidLive(a: ArenaState, live: set<Extent>, e: Extent)
    requires Tiles(a, live) && e in live
    ensures forall i :: 0 <= i < |a.holes| ==> Disjoint(a.holes[i], e)
  {
    forall i | 0 <= i < |a.holes| ensures Disjoint(a.holes[i], e) {
      var h := a.holes[i];
      forall x | h.Has(x) ensures !e.Has(x) {
        assert h in a.holes && InSomeOf(a.holes, x);
      }
      DisjointByBytes(h, e);
    }
  }

  /** Freeing a live block returns exactly its bytes to the free list. */
  lemma FreeTiles(a: ArenaState, live: set<Extent>, e: Extent)
    requires Tiles(a, live) && e in live
    ensures Tiles(Free(a, e.off, e.size), live - {e})
    ensures Free(a, e.off, e.size).used == a.used - e.size
  {
    HolesAvoidLive(a, live, e);
    TotalSizeRemove(live, e);
    InsertOrder(a.holes, e, a.high);
    InsertSum(a.holes, e);
    var ins := Insert(a.holes, e);
    CoalesceOrder(ins);
    CoalesceSum(ins);
    forall x | 0 <= x < a.high
      ensures InSomeOf(Coalesce(ins), x) <==> !InSome(live - {e}, x)
    {
      CoalesceCells(ins, x);
      InsertCells(a.holes, e, x);
      RemoveCells(live, e, x);
      if e.Has(x) { assert InSome(live, x); }
    }
  }

  lemma FreeHigh(a: ArenaState, off: nat, bytes: nat)
    ensures Free(a, off, bytes).high == a.high && Free(a, off, bytes).cap == a.cap
  {
  }

  lemma InitTiles(cap: SizeT)
    ensures Tiles(Init(cap), {})
  {
  }

  // ---- whole runs ----------------------------------------------------------

  datatype ArenaOp = DoAlloc(bytes: SizeT) | DoFree(block: Extent)

  /** The arena together with the blocks its client holds. */
  datatype Tenancy = Tenancy(arena: ArenaState, live: set<Extent>)

  /** A client frees only blocks it holds, and asks for sizes that cannot overflow `size_t`. */
  predicate ArenaLegal(t: Tenancy, op: ArenaOp) {
    match op
    case DoAlloc(bytes) => t.arena.high + bytes < SIZE_LIMIT
    case DoFree(block) => block in t.live
  }

  function ArenaStep(t: Tenancy, op: ArenaOp): Tenancy {
    match op
    case DoAlloc(bytes) =>
      var (a, r) := Alloc(t.arena, bytes);
      Tenancy(a, if r.Some? then t.live + {Extent(r.value, bytes)} else t.live)
    case DoFree(block) =>
      Tenancy(Free(t.arena, block.off, block.size), t.live - {block})
  }

  ghost predicate ArenaRun(ts: seq<Tenancy>, ops: seq<ArenaOp>) {
    && |ts| == |ops| + 1
    && forall i :: 0 <= i < |ops| ==>
         && ArenaLegal(ts[i], ops[i])
         && ts[i + 1] == ArenaStep(ts[i], ops[i])
  }

  lemma StepTiles(t: Tenancy, op: ArenaOp)
    requires Tiles(t.arena, t.live) && ArenaLegal(t, op)
    ensures Tiles(ArenaStep(t, op).arena, ArenaStep(t, op).live)
    ensures ArenaStep(t, op).arena.cap == t.arena.cap
  {
    match op
    case DoAlloc(bytes) => AllocTiles(t.arena, t.live, bytes);
    case DoFree(block) => FreeTiles(t.arena, t.live, block);
  }

  /** After any legal sequence of allocations and frees, live blocks and holes tile [0, high). */
  lemma {:induction false} RunTiles(ts: seq<Tenancy>, ops: seq<ArenaOp>, i: nat)
    requires ArenaRun(ts, ops) && i < |ts|
    requires ts[0].live == {} && ts[0].arena == Init(ts[0].arena.cap)
    ensures Tiles(ts[i].arena, ts[i].live)
  {
    if i == 0 {
      InitTiles(ts[0].arena.cap);
    } else {
      RunTiles(ts, ops, i - 1);
      StepTiles(ts[i - 1], ops[i - 1]);
    }
  }

  /**
   The size condition is exact: an allocation that succeeds keeps the tiling if and
   only if high + bytes stays below 2^64. When it wraps, the code hands out a block
   that ends beyond the arena.
   */
  lemma AllocTilesIffNoWrap(a: ArenaState, live: set<Extent>, bytes: SizeT)
    requires Tiles(a, live) && Alloc(a, bytes).1.Some? && FirstFit(a.holes, bytes) == |a.holes|
    ensures Tiles(Alloc(a, bytes).0, live + {Extent(Alloc(a, bytes).1.value, bytes)}) <==>
            a.high + bytes < SIZE_LIMIT
  {
    if a.high + bytes < SIZE_LIMIT {
      AllocTiles(a, live, bytes);
    } else {
      var e := Extent(a.high, bytes);
      assert e in live + {e} && e.End() > a.cap;
    }
  }

  /** A successful allocation keeps the tiling exactly if it does not wrap or finds its bytes below the mark. */
  lemma AllocKeepsTilesIff(a: ArenaState, live: set<Extent>, bytes: SizeT)
    requires Tiles(a, live) && Alloc(a, bytes).1.Some?
    ensures Tiles(Alloc(a, bytes).0, live + {Extent(Alloc(a, bytes).1.value, bytes)}) <==>
            a.high + bytes < SIZE_LIMIT || HasWindow(live, a.high, bytes)
  {
    var i := FirstFit(a.holes, bytes);
    if i < |a.holes| {
      AllocFromHole(a, live, i, bytes);
      hide Tiles;
      HoleIsWindow(a, live, a.holes[i], bytes);
    } else {
      AllocTilesIffNoWrap(a, live, bytes);
      hide Tiles;
      NoHoleNoWindow(a, live, bytes);
    }
  }

  lemma NoHoleNoWindow(a: ArenaState, live: set<Extent>, bytes: nat)
    requires Tiles(a, live) && 0 < bytes && forall h :: h in a.holes ==> h.size < bytes
    ensures !HasWindow(live, a.high, bytes)
  {
    hide Tiles;
    if off :| Window(live, a.high, off, bytes) {
      var h := WindowInHole(a, live, off, bytes);
    }
  }

  /** With nothing live, at most one hole is left and it spans everything ever handed out. */
  lemma EmptyIsOneHole(a: ArenaState)
    requires Tiles(a, {})
    ensures a.used == 0
    ensures a.holes == if a.high == 0 then [] else [Extent(0, a.high)]
  {
    if a.high > 0 {
      assert InSomeOf(a.holes, 0);
      var h :| h in a.holes && h.Has(0);
      assert h.End() < a.high ==> InSomeOf(a.holes, h.End());
      assert a.holes[0] == h;
    }
  }
}
