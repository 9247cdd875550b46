/** Byte ranges, and the total size of a finite family of them. */
module Extents {

  /** The `size` bytes starting at `off`: a free-list hole or a live block. */
  datatype Extent = Extent(off: nat, size: nat) {
    function End(): nat { off + size }

    predicate Has(x: int) { off <= x < off + size }
  }

  predicate Disjoint(a: Extent, b: Extent) {
    a.End() <= b.off || b.End() <= a.off
  }

  /** Non-empty ranges without a common byte are disjoint. */
  lemma DisjointByBytes(a: Extent, b: Extent)
    requires a.size > 0 && b.size > 0
    requires forall x :: a.Has(x) ==> !b.Has(x)
    ensures Disjoint(a, b)
  {
    var x := if a.off < b.off then b.off else a.off;
    assert !(a.Has(x) && b.Has(x));
  }

  ghost predicate InSome(s: set<Extent>, x: int) {
    exists e :: e in s && e.Has(x)
  }

  ghost predicate InSomeOf(hs: seq<Extent>, x: int) {
    exists h :: h in hs && h.Has(x)
  }

  ghost function TotalSize(s: set<Extent>): nat {
    if s == {} then 0 else var e :| e in s; e.size + TotalSize(s - {e})
  }

  /** The total does not depend on the order in which the family is summed. */
  lemma {:induction false} TotalSizeRemove(s: set<Extent>, e: Extent)
    requires e in s
    ensures TotalSize(s) == e.size + TotalSize(s - {e})
    decreases |s|
  {
    var f :| f in s && TotalSize(s) == f.size + TotalSize(s - {f});
    if e != f {
      TotalSizeRemove(s - {f}, e);
      TotalSizeRemove(s - {e}, f);
      assert s - {f} - {e} == s - {e} - {f};
    }
  }

  lemma TotalSizeAdd(s: set<Extent>, e: Extent)
    requires e !in s
    ensures TotalSize(s + {e}) == TotalSize(s) + e.size
  {
    TotalSizeRemove(s + {e}, e);
    assert s + {e} - {e} == s;
  }

  function SumSizes(hs: seq<Extent>): nat {
    if hs == [] then 0 else SumSizes(hs[..|hs| - 1]) + hs[|hs| - 1].size
  }

  lemma {:induction false} SumSizesConcat(a: seq<Extent>, b: seq<Extent>)
    ensures SumSizes(a + b) == SumSizes(a) + SumSizes(b)
  {
    if b == [] {
      assert a + b == a;
    } else {
      var n := |b| - 1;
      assert (a + b)[..|a + b| - 1] == a + b[..n];
      SumSizesConcat(a, b[..n]);
    }
  }

  /** Splitting a sum at position `i`. */
  lemma SumSizesAt(hs: seq<Extent>, i: nat)
    requires i < |hs|
    ensures SumSizes(hs) == SumSizes(hs[..i]) + hs[i].size + SumSizes(hs[i + 1..])
  {
    SumSizesConcat(hs[..i], [hs[i]]);
    SumSizesConcat(hs[..i] + [hs[i]], hs[i + 1..]);
    assert hs[..i] + [hs[i]] + hs[i + 1..] == hs;
    assert [hs[i]][..0] == [];
  }
}
