/** Tensor names and their resolution over several shards (dee.cpp/src/weight_mmap.cpp). */
module TensorResolver {
  import opened Wrappers
  import opened Decimals
  import opened SafetensorsSpec
  import opened SafetensorsRoundTrip

  datatype Kind = GATE_PROJ | UP_PROJ | DOWN_PROJ

  function KindName(k: Kind): string {
    match k
    case GATE_PROJ => "gate_proj"
    case UP_PROJ => "up_proj"
    case DOWN_PROJ => "down_proj"
  }

  /** The canonical name of one projection of one expert. */
  function ExpertTensorName(layer: int, expert: int, kind: Kind): string {
    "model.language_model.layers" + (['.'] + (PrintInt(layer) + (['.'] + ("mlp.experts" + (['.'] + (PrintInt(expert) +
      (['.'] + (KindName(kind) + (['.'] + "weight")))))))))
  }

  lemma NoDot(n: int)
    ensures '.' !in PrintInt(n)
  {
    hide PrintInt;
    PrintIntShape(n);
    var p := PrintInt(n);
    if p[0] == '-' { assert p == ['-'] + p[1..]; }
  }

  function FirstDot(s: string): nat { if s == [] || s[0] == '.' then 0 else 1 + FirstDot(s[1..]) }

  lemma {:induction false} FirstDotAfter(a: string, x: string)
    requires '.' !in a
    ensures FirstDot(a + (['.'] + x)) == |a|
  {
    if a != [] {
      assert (a + (['.'] + x))[1..] == a[1..] + (['.'] + x);
      FirstDotAfter(a[1..], x);
    }
  }

  /** A dot splits a text in only one way when what precedes it has none. */
  lemma DotSplits(a: string, x: string, b: string, y: string)
    requires a + (['.'] + x) == b + (['.'] + y) && '.' !in a && '.' !in b
    ensures a == b && x == y
  {
    var s, t := a + (['.'] + x), b + (['.'] + y);
    FirstDotAfter(a, x);
    FirstDotAfter(b, y);
    assert s[..|a|] == a && t[..|b|] == b;
    assert s[|a| + 1..] == x && t[|b| + 1..] == y;
  }

  lemma PrefixCancels(p: string, x: string, y: string)
    requires p + x == p + y
    ensures x == y
  {
    assert (p + x)[|p|..] == x && (p + y)[|p|..] == y;
  }

  lemma KindNameInjective(j: Kind, k: Kind)
    requires KindName(j) == KindName(k)
    ensures j == k
  {
    assert KindName(j)[0] == KindName(k)[0];
  }

  lemma KindNoDot(k: Kind)
    ensures '.' !in KindName(k)
  {
  }

  /** Distinct experts, layers or projections have distinct names. */
  lemma NameInjective(l1: int, e1: int, k1: Kind, l2: int, e2: int, k2: Kind)
    requires ExpertTensorName(l1, e1, k1) == ExpertTensorName(l2, e2, k2)
    ensures l1 == l2 && e1 == e2 && k1 == k2
  {
    hide PrintInt, KindName;
    var z1, z2 := KindName(k1) + (['.'] + "weight"), KindName(k2) + (['.'] + "weight");
    var y1, y2 := PrintInt(e1) + (['.'] + z1), PrintInt(e2) + (['.'] + z2);
    var w1, w2 := "mlp.experts" + (['.'] + y1), "mlp.experts" + (['.'] + y2);
    var x1, x2 := PrintInt(l1) + (['.'] + w1), PrintInt(l2) + (['.'] + w2);
    PrefixCancels("model.language_model.layers", ['.'] + x1, ['.'] + x2);
    PrefixCancels(['.'], x1, x2);
    NoDot(l1); NoDot(l2); NoDot(e1); NoDot(e2);
    KindNoDot(k1); KindNoDot(k2);
    DotSplits(PrintInt(l1), w1, PrintInt(l2), w2);
    PrintIntInjective(l1, l2);
    PrefixCancels("mlp.experts", ['.'] + y1, ['.'] + y2);
    PrefixCancels(['.'], y1, y2);
    DotSplits(PrintInt(e1), z1, PrintInt(e2), z2);
    PrintIntInjective(e1, e2);
    DotSplits(KindName(k1), "weight", KindName(k2), "weight");
    KindNameInjective(k1, k2);
  }

  // ---- resolution ----------------------------------------------------------------

  /** The first shard with a non-empty tensor of that name, and the view into it. */
  function ResolveFrom(shards: seq<Shard>, name: string, i: nat): Option<(nat, View)>
    requires i <= |shards|
    decreases |shards| - i
  {
    if i == |shards| then None
    else
      var v := Lookup(shards[i], name);
      if v.Some? && v.value.nbytes > 0 then Some((i, v.value)) else ResolveFrom(shards, name, i + 1)
  }

  function ResolveExpert(shards: seq<Shard>, layer: int, expert: int, kind: Kind): Option<(nat, View)> {
    ResolveFrom(shards, ExpertTensorName(layer, expert, kind), 0)
  }

  /** The shards are the written forms of `tss`, opened. */
  ghost predicate Registered(shards: seq<Shard>, tss: seq<seq<Tensor>>) {
    && |shards| == |tss|
    && forall i :: 0 <= i < |tss| ==> Writable(tss[i]) && Open(Written(tss[i])) == Some(shards[i])
  }

  /** Tensor `j` is the last that reads as `name`, and not empty. */
  ghost predicate HoldsTensor(ts: seq<Tensor>, name: string, j: int) {
    0 <= j < |ts| && LastNamed(ts, j) && Reads(ts[j].name) == name && ts[j].data != []
  }

  lemma FindLast(ts: seq<Tensor>, i: nat) returns (j: nat)
    requires i < |ts|
    ensures LastNamed(ts, j) && Reads(ts[j].name) == Reads(ts[i].name)
  {
    hide Reads;
    j := i;
    for k := i + 1 to |ts|
      invariant i <= j < k && Reads(ts[j].name) == Reads(ts[i].name)
      invariant forall q :: j < q < k ==> Reads(ts[q].name) != Reads(ts[i].name)
    {
      if Reads(ts[k].name) == Reads(ts[i].name) { j := k; }
    }
  }

  lemma LookupIff(ts: seq<Tensor>, name: string)
    requires Writable(ts)
    ensures Open(Written(ts)).Some?
    ensures var v := Lookup(Open(Written(ts)).value, name);
            (v.Some? && v.value.nbytes > 0) <==> exists j :: HoldsTensor(ts, name, j)
    ensures var v := Lookup(Open(Written(ts)).value, name);
            v.Some? && v.value.nbytes > 0 ==>
              exists j :: HoldsTensor(ts, name, j) && v.value.start + v.value.nbytes <= |Written(ts)|
                          && Shown(Written(ts), v.value) == ts[j].data
  {
    hide Writable, Open, Lookup, Written, LastNamed, Reads;
    if q :| 0 <= q < |ts| && Reads(ts[q].name) == name {
      var i := FindLast(ts, q);
      LastInRange(ts, i);
      WrittenLookup(ts, i);
      var v := Lookup(Open(Written(ts)).value, name).value;
      assert v.nbytes == |ts[i].data|;
      if ts[i].data != [] { assert HoldsTensor(ts, name, i); }
      NameUnique(ts, i);
      assert forall j :: HoldsTensor(ts, name, j) ==> j == i;
    } else {
      UnwrittenLookup(ts, name);
    }
  }

  lemma LastInRange(ts: seq<Tensor>, i: int)
    requires LastNamed(ts, i)
    ensures 0 <= i < |ts|
  {
  }

  lemma NameUnique(ts: seq<Tensor>, i: nat)
    requires LastNamed(ts, i)
    ensures forall j :: LastNamed(ts, j) && Reads(ts[j].name) == Reads(ts[i].name) ==> j == i
  {
    hide Reads;
  }

  /**
   resolve_expert finds a tensor if and only if some shard holds a non-empty one under that
   very expert's name, and then shows exactly that tensor's bytes: never another expert's.
   */
  lemma {:induction false} ResolvesOwn(shards: seq<Shard>, tss: seq<seq<Tensor>>, name: string, i: nat)
    requires Registered(shards, tss) && i <= |shards|
    ensures ResolveFrom(shards, name, i).Some? <==> exists m, j :: i <= m < |tss| && HoldsTensor(tss[m], name, j)
    ensures ResolveFrom(shards, name, i).Some? ==>
              var (m, v) := ResolveFrom(shards, name, i).value;
              && i <= m < |tss|
              && exists j :: HoldsTensor(tss[m], name, j) && v.start + v.nbytes <= |Written(tss[m])|
                             && Shown(Written(tss[m]), v) == tss[m][j].data
    decreases |shards| - i
  {
    hide Writable, Open, Lookup, Written, HoldsTensor;
    if i < |shards| {
      LookupIff(tss[i], name);
      ResolvesOwn(shards, tss, name, i + 1);
    }
  }

  /** No tensor of any shard can be what two different experts, or projections, resolve to. */
  lemma ResolvesApart(ts: seq<Tensor>, j: int, l1: int, e1: int, k1: Kind, l2: int, e2: int, k2: Kind)
    requires HoldsTensor(ts, ExpertTensorName(l1, e1, k1), j) && HoldsTensor(ts, ExpertTensorName(l2, e2, k2), j)
    ensures l1 == l2 && e1 == e2 && k1 == k2
  {
    hide ExpertTensorName;
    NameInjective(l1, e1, k1, l2, e2, k2);
  }

  // ---- the names of the three projections ----------------------------------------

  /** The generator's name for one tensor of one expert, `kind` as it spells it. */
  function ShardName(layer: int, expert: int, kind: string): string {
    "model.language_model.layers." + PrintInt(layer) + ".mlp.experts." + PrintInt(expert) + "." + kind + ".weight"
  }

  lemma NameIsShardName(layer: int, expert: int)
    ensures ExpertTensorName(layer, expert, GATE_PROJ) == ShardName(layer, expert, "gate_proj")
    ensures ExpertTensorName(layer, expert, UP_PROJ) == ShardName(layer, expert, "up_proj")
    ensures ExpertTensorName(layer, expert, DOWN_PROJ) == ShardName(layer, expert, "down_proj")
  {
    hide PrintInt;
    NameParts(PrintInt(layer), PrintInt(expert), "gate_proj");
    NameParts(PrintInt(layer), PrintInt(expert), "up_proj");
    NameParts(PrintInt(layer), PrintInt(expert), "down_proj");
  }

  lemma NameParts(l: string, e: string, kind: string)
    ensures "model.language_model.layers" + (['.'] + (l + (['.'] + ("mlp.experts" + (['.'] + (e + (['.'] + (kind +
              (['.'] + "weight"))))))))) ==
            "model.language_model.layers." + l + ".mlp.experts." + e + "." + kind + ".weight"
  {
    assert "model.language_model.layers" + ['.'] == "model.language_model.layers.";
    assert ['.'] + "mlp.experts" + ['.'] == ".mlp.experts.";
    assert ['.'] == ".";
    assert ['.'] + "weight" == ".weight";
  }

  lemma PlainParts(a: string, b: string)
    requires Plain(a) && Plain(b)
    ensures Plain(a + b)
  {
    forall i | 0 <= i < |a + b|
      ensures ' ' <= (a + b)[i] <= '~' || (a + b)[i] == '\n' || (a + b)[i] == '\r' || (a + b)[i] == '\t'
    {
      assert if i < |a| then (a + b)[i] == a[i] else (a + b)[i] == b[i - |a|];
    }
  }

  lemma PlainNumber(n: int)
    ensures Plain(PrintInt(n))
  {
    hide PrintInt;
    PrintIntShape(n);
    var p := PrintInt(n);
    if p[0] == '-' { assert p == ['-'] + p[1..]; }
  }

  /** An expert's names are read back as they were written. */
  lemma ShardNameReads(layer: int, expert: int, kind: string)
    requires Plain(kind)
    ensures Reads(ShardName(layer, expert, kind)) == ShardName(layer, expert, kind)
  {
    hide PrintInt, Reads, Plain;
    PlainNumber(layer);
    PlainNumber(expert);
    FixedPlain();
    var a := "model.language_model.layers." + PrintInt(layer);
    PlainParts("model.language_model.layers.", PrintInt(layer));
    PlainParts(a, ".mlp.experts.");
    PlainParts(a + ".mlp.experts.", PrintInt(expert));
    PlainParts(a + ".mlp.experts." + PrintInt(expert), ".");
    PlainParts(a + ".mlp.experts." + PrintInt(expert) + ".", kind);
    PlainParts(a + ".mlp.experts." + PrintInt(expert) + "." + kind, ".weight");
    ReadsItselfIff(ShardName(layer, expert, kind));
  }

  lemma FixedPlain()
    ensures Plain("model.language_model.layers.") && Plain(".mlp.experts.") && Plain(".") && Plain(".weight")
    ensures Plain("gate_proj") && Plain("up_proj") && Plain("down_proj")
  {
  }

  /** The first shard that holds a non-empty tensor of the name decides. */
  lemma {:induction false} ResolvesFirst(shards: seq<Shard>, tss: seq<seq<Tensor>>, name: string, i: nat,
                                             m: nat, j: nat)
    requires Registered(shards, tss) && i <= m < |shards| && HoldsTensor(tss[m], name, j)
    requires forall q, p :: i <= q < m ==> !HoldsTensor(tss[q], name, p)
    ensures ResolveFrom(shards, name, i).Some?
    ensures var (n, v) := ResolveFrom(shards, name, i).value;
            && n == m && v.start + v.nbytes <= |Written(tss[m])| && Shown(Written(tss[m]), v) == tss[m][j].data
    decreases |shards| - i
  {
    hide Writable, Open, Lookup, Written, LastNamed, Reads;
    LookupIff(tss[i], name);
    if i < m {
      ResolvesFirst(shards, tss, name, i + 1, m, j);
    } else {
      var v := Lookup(Open(Written(tss[i])).value, name).value;
      var q :| HoldsTensor(tss[i], name, q) && Shown(Written(tss[i]), v) == tss[i][q].data;
      HoldsOnce(tss[i], name, j, q);
    }
  }

  lemma HoldsOnce(ts: seq<Tensor>, name: string, j: int, q: int)
    requires HoldsTensor(ts, name, j) && HoldsTensor(ts, name, q)
    ensures j == q
  {
    hide Reads;
  }

  /** Tensor `j` of shard `m` is `kind` of the expert, as the generator names it, and the first that is not empty. */
  ghost predicate Stores(tss: seq<seq<Tensor>>, layer: int, expert: int, kind: string, m: nat, j: nat) {
    && m < |tss| && HoldsTensor(tss[m], ShardName(layer, expert, kind), j)
    && forall q, p :: 0 <= q < m ==> !HoldsTensor(tss[q], ShardName(layer, expert, kind), p)
  }

  /** What is resolved in shard `m` shows the bytes of tensor `j` there. */
  ghost predicate Resolved(r: Option<(nat, View)>, tss: seq<seq<Tensor>>, m: nat, j: nat) {
    && r.Some? && r.value.0 == m && m < |tss| && j < |tss[m]|
    && r.value.1.start + r.value.1.nbytes <= |Written(tss[m])|
    && Shown(Written(tss[m]), r.value.1) == tss[m][j].data
  }

  /** Each projection resolves to the bytes the generator stored under that projection's own name. */
  lemma ResolvesProjections(shards: seq<Shard>, tss: seq<seq<Tensor>>, layer: int, expert: int, m: nat, j: nat)
    requires Registered(shards, tss)
    ensures Stores(tss, layer, expert, "gate_proj", m, j) ==>
              Resolved(ResolveExpert(shards, layer, expert, GATE_PROJ), tss, m, j)
    ensures Stores(tss, layer, expert, "up_proj", m, j) ==>
              Resolved(ResolveExpert(shards, layer, expert, UP_PROJ), tss, m, j)
    ensures Stores(tss, layer, expert, "down_proj", m, j) ==>
              Resolved(ResolveExpert(shards, layer, expert, DOWN_PROJ), tss, m, j)
  {
    hide Registered, ResolveFrom, ExpertTensorName, ShardName, HoldsTensor;
    NameIsShardName(layer, expert);
    ResolvesStored(shards, tss, layer, expert, "gate_proj", m, j);
    ResolvesStored(shards, tss, layer, expert, "up_proj", m, j);
    ResolvesStored(shards, tss, layer, expert, "down_proj", m, j);
  }

  lemma ResolvesStored(shards: seq<Shard>, tss: seq<seq<Tensor>>, layer: int, expert: int, kind: string, m: nat, j: nat)
    requires Registered(shards, tss)
    ensures Stores(tss, layer, expert, kind, m, j) ==>
              Resolved(ResolveFrom(shards, ShardName(layer, expert, kind), 0), tss, m, j)
  {
    hide ResolveFrom, ShardName, Writable, Open, Written;
    if Stores(tss, layer, expert, kind, m, j) {
      ResolvesFirst(shards, tss, ShardName(layer, expert, kind), 0, m, j);
    }
  }

  /** A tensor written under the generator's name is stored under it. */
  lemma NamedIsStored(tss: seq<seq<Tensor>>, layer: int, expert: int, kind: string, m: nat, j: nat)
    requires m < |tss| && j < |tss[m]| && tss[m][j].name == ShardName(layer, expert, kind) && Plain(kind)
    requires tss[m][j].data != [] && LastNamed(tss[m], j)
    requires forall q, p :: 0 <= q < m ==> !HoldsTensor(tss[q], ShardName(layer, expert, kind), p)
    ensures Stores(tss, layer, expert, kind, m, j)
  {
    hide ShardName, Plain, LastNamed;
    ShardNameReads(layer, expert, kind);
  }
}
