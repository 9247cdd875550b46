/** The shard mapping of dee.cpp/src/weight_mmap.cpp with its tensor table filled in place. */
module WeightMmaps {
  import opened Wrappers
  import opened Maps
  import opened ArenaSpec
  import opened JsonSpec
  import opened JsonParser
  import opened SafetensorsSpec
  import opened TensorResolver

  class WeightMmap {
    var base: string
    var header: string
    var tensors: map<string, Meta>

    constructor ()
      ensures base == [] && header == [] && tensors == map[]
    {
      base, header, tensors := [], [], map[];
    }

    ghost function State(): Shard
      reads this
    {
      Shard(base, header, tensors)
    }

    /** The integer entries of a shape array. */
    static method ReadShape(vs: seq<Value>) returns (shape: seq<int>)
      ensures shape == IntsOf(vs)
    {
      shape := [];
      for i := 0 to |vs|
        invariant shape + IntsOf(vs[i..]) == IntsOf(vs)
      {
        assert vs[i..][1..] == vs[i + 1..];
        if vs[i].Int? { shape := shape + [vs[i].i]; }
      }
      assert shape + [] == shape;
    }

    /** One header entry, as parse_header_json reads it. */
    static method ReadEntry(v: Value) returns (m: Option<Meta>)
      ensures m == MetaOf(v)
    {
      if !v.Object? { return None; }
      if !("dtype" in v.obj && v.obj["dtype"].Str?) { return None; }
      if !("data_offsets" in v.obj && v.obj["data_offsets"].Array? && |v.obj["data_offsets"].arr| >= 2) { return None; }
      var shape := [];
      if "shape" in v.obj && v.obj["shape"].Array? { shape := ReadShape(v.obj["shape"].arr); }
      var start := IntField(v.obj["data_offsets"].arr[0]);
      var end := IntField(v.obj["data_offsets"].arr[1]);
      m := Some(Meta(Wrap(start), Wrap(end - start), DTypeFromString(v.obj["dtype"].s), shape));
    }

    /** Fill the table from the header, entry by entry, in whatever order the map has. */
    method ParseHeader(obj: map<string, Value>)
      requires tensors == map[]
      modifies this`tensors
      ensures tensors == TensorsOf(obj)
    {
      hide MetaOf;
      var rest := obj.Keys;
      while rest != {}
        invariant rest <= obj.Keys
        invariant tensors == TensorsOf(obj - rest)
        decreases rest
      {
        var name := Pick(rest);
        var m := ReadEntry(obj[name]);
        if name != "__metadata__" && m.Some? { tensors := tensors[name := m.value]; }
        AddEntry(obj, rest, name);
        rest := rest - {name};
      }
      assert obj - {} == obj;
    }

    /** Open a file whose bytes are `file`; false where the source reports failure or throws. */
    method OpenFile(file: string) returns (ok: bool)
      modifies this
      ensures ok <==> Open(file).Some?
      ensures ok ==> State() == Open(file).value
      ensures !ok ==> tensors == map[]
    {
      hide FromLittleEndian, Parse, TensorsOf;
      base, header, tensors := [], [], map[];
      if |file| < 8 { return false; }
      base := file;
      var hlen := FromLittleEndian(file[..8]);
      if hlen == 0 || Wrap(8 + hlen) > |file| || 8 + hlen >= SIZE_LIMIT { return false; }
      header := file[8..8 + hlen];
      var root := ParseText(header);
      if root.None? || !root.value.1 || !root.value.0.Object? { return false; }
      ParseHeader(root.value.0.obj);
      ok := true;
    }
  }

  lemma AddEntry(obj: map<string, Value>, rest: set<string>, name: string)
    requires name in rest && rest <= obj.Keys
    ensures TensorsOf(obj - (rest - {name})) ==
            if name != "__metadata__" && MetaOf(obj[name]).Some?
            then TensorsOf(obj - rest)[name := MetaOf(obj[name]).value]
            else TensorsOf(obj - rest)
  {
    hide MetaOf;
  }

  /** Walk the registered shards until one has the tensor. */
  method Resolve(shards: seq<Shard>, layer: int, expert: int, kind: Kind) returns (r: Option<(nat, View)>)
    ensures r == ResolveExpert(shards, layer, expert, kind)
  {
    hide Lookup, ExpertTensorName;
    var name := ExpertTensorName(layer, expert, kind);
    for i := 0 to |shards|
      invariant ResolveFrom(shards, name, i) == ResolveExpert(shards, layer, expert, kind)
    {
      var v := Lookup(shards[i], name);
      if v.Some? && v.value.nbytes > 0 { return Some((i, v.value)); }
    }
    r := None;
  }
}
