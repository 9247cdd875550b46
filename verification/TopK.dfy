/**
 The top-K selection of OracleScheduler::predict (dee.cpp/src/oracle.cpp). The MLP that
 produces the logits is a parameter; std::sort may order equal logits either way, so the
 selection is specified by what it must satisfy. Logits are reals: no NaN.
 */
module TopK {

  /** `idx` lists every expert below n once: `pos` is its inverse. */
  ghost predicate Permutation(idx: seq<int>, pos: seq<int>) {
    && |idx| == |pos|
    && (forall i :: 0 <= i < |idx| ==> 0 <= idx[i] < |idx| && pos[idx[i]] == i)
    && (forall e :: 0 <= e < |pos| ==> 0 <= pos[e] < |idx| && idx[pos[e]] == e)
  }

  predicate InRange(idx: seq<int>, n: nat) { forall i :: 0 <= i < |idx| ==> 0 <= idx[i] < n }

  function Width(topk: int, n: nat): nat { if topk < 0 then 0 else if topk < n then topk else n }

  /** Distinct experts in range, by descending logit, none of them below any expert left out. */
  ghost predicate IsTopK(out: seq<int>, logits: seq<real>, topk: int) {
    && |out| == (if topk <= 0 then 0 else if topk <= |logits| then topk else |logits|)
    && InRange(out, |logits|)
    && (forall i, j :: 0 <= i < j < |out| ==> out[i] != out[j])
    && (forall i, j :: 0 <= i < j < |out| ==> logits[out[i]] >= logits[out[j]])
    && (forall e, i :: 0 <= e < |logits| && e !in out && 0 <= i < |out| ==> logits[e] <= logits[out[i]])
  }

  /** The first `m` positions are in descending order and not below any later one. */
  ghost predicate SortedTo(idx: seq<int>, logits: seq<real>, m: nat)
    requires InRange(idx, |logits|)
  {
    forall i, j :: 0 <= i < j < |idx| && i < m ==> logits[idx[i]] >= logits[idx[j]]
  }

  lemma SwapPermutes(idx: seq<int>, pos: seq<int>, a: nat, b: nat)
    requires Permutation(idx, pos) && a < |idx| && b < |idx|
    ensures Permutation(idx[a := idx[b]][b := idx[a]], pos[idx[a] := b][idx[b] := a])
  {
  }

  lemma SwapSorts(idx: seq<int>, logits: seq<real>, m: nat, b: nat)
    requires InRange(idx, |logits|) && SortedTo(idx, logits, m) && m <= b < |idx|
    requires forall j :: m <= j < |idx| ==> logits[idx[j]] <= logits[idx[b]]
    ensures var r := idx[m := idx[b]][b := idx[m]]; InRange(r, |logits|) && SortedTo(r, logits, m + 1)
  {
  }

  /** Sort `idx` in place so that its logits descend. */
  method SortByLogit(idx: array<int>, logits: seq<real>, ghost pos: seq<int>) returns (ghost inv: seq<int>)
    requires idx.Length == |logits| && Permutation(idx[..], pos)
    modifies idx
    ensures Permutation(idx[..], inv) && InRange(idx[..], |logits|) && SortedTo(idx[..], logits, |logits|)
  {
    hide Permutation, SortedTo;
    inv := pos;
    PermutationInRange(idx[..], inv);
    SortedNone(idx[..], logits);
    for m := 0 to idx.Length
      invariant Permutation(idx[..], inv) && InRange(idx[..], |logits|) && SortedTo(idx[..], logits, m)
    {
      var best := m;
      for j := m + 1 to idx.Length
        invariant m <= best < idx.Length
        invariant forall k :: m <= k < j ==> logits[idx[k]] <= logits[idx[best]]
      {
        if logits[idx[j]] > logits[idx[best]] { best := j; }
      }
      PermutationInRange(idx[..], inv);
      SwapPermutes(idx[..], inv, m, best);
      SwapSorts(idx[..], logits, m, best);
      ghost var before := idx[..];
      inv := inv[before[m] := best][before[best] := m];
      idx[m], idx[best] := idx[best], idx[m];
      assert idx[..] == before[m := before[best]][best := before[m]];
    }
  }

  lemma PermutationInRange(idx: seq<int>, pos: seq<int>)
    requires Permutation(idx, pos)
    ensures InRange(idx, |idx|) && |pos| == |idx| && forall i :: 0 <= i < |idx| ==> 0 <= idx[i] < |pos|
  {
  }

  lemma SortedNone(idx: seq<int>, logits: seq<real>)
    requires InRange(idx, |logits|)
    ensures SortedTo(idx, logits, 0)
  {
  }

  /** The front of a descending permutation is a top-K selection. */
  lemma FrontIsTopK(idx: seq<int>, pos: seq<int>, logits: seq<real>, topk: int)
    requires |idx| == |logits| && Permutation(idx, pos) && InRange(idx, |logits|) && SortedTo(idx, logits, |logits|)
    ensures IsTopK(idx[..Width(topk, |logits|)], logits, topk)
  {
    var k := Width(topk, |logits|);
    var out := idx[..k];
    forall i, j | 0 <= i < j < k ensures out[i] != out[j] {
      assert pos[idx[i]] == i && pos[idx[j]] == j;
    }
    forall e, i | 0 <= e < |logits| && e !in out && 0 <= i < k ensures logits[e] <= logits[out[i]] {
      assert forall q :: 0 <= q < k ==> idx[q] == out[q] && out[q] in out;
      assert idx[pos[e]] == e;
    }
  }

  /** predict: the experts with the highest logits, best first. */
  method Predict(logits: seq<real>, topk: int) returns (out: seq<int>)
    ensures IsTopK(out, logits, topk)
  {
    hide IsTopK;
    var idx := new int[|logits|](i => i);
    ghost var pos := idx[..];
    ghost var inv := SortByLogit(idx, logits, pos);
    FrontIsTopK(idx[..], inv, logits, topk);
    out := [];
    var k := Width(topk, |logits|);
    for i := 0 to k
      invariant out == idx[..i]
    {
      out := out + [idx[i]];
    }
  }
}
