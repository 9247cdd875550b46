/**
 The safetensors reader of dee.cpp/src/weight_mmap.cpp and the writer of
 dee.cpp/tests/gen_synthetic_shard.py on values. A file is a string of bytes, each byte a
 character as in C; opening maps it and parses the JSON header that follows an 8-byte
 little-endian length.
 */
module SafetensorsSpec {
  import opened Wrappers
  import opened ArenaSpec
  import opened JsonSpec
  import opened JsonRoundTrip

  datatype DType = F32 | F16 | BF16 | UNKNOWN

  function DTypeFromString(s: string): DType {
    if s == "F32" || s == "F32E4M3" || s == "F32E5M2" then F32
    else if s == "F16" then F16
    else if s == "BF16" then BF16
    else UNKNOWN
  }

  // ---- little-endian lengths -----------------------------------------------------

  function ToLittleEndian(n: nat, k: nat): string {
    if k == 0 then [] else [(n % 256) as char] + ToLittleEndian(n / 256, k - 1)
  }

  function FromLittleEndian(bytes: string): nat {
    if bytes == [] then 0 else bytes[0] as int + 256 * FromLittleEndian(bytes[1..])
  }

  function Pow256(k: nat): nat { if k == 0 then 1 else 256 * Pow256(k - 1) }

  lemma {:induction false} LittleEndianInverse(n: nat, k: nat)
    requires n < Pow256(k)
    ensures |ToLittleEndian(n, k)| == k && FromLittleEndian(ToLittleEndian(n, k)) == n
  {
    if k > 0 {
      assert n / 256 < Pow256(k - 1);
      LittleEndianInverse(n / 256, k - 1);
      assert ToLittleEndian(n, k)[1..] == ToLittleEndian(n / 256, k - 1);
    }
  }

  lemma Pow256Eight()
    ensures Pow256(8) == SIZE_LIMIT
  {
    assert Pow256(2) == 0x1_0000;
    assert Pow256(4) == 0x1_0000_0000;
    assert Pow256(6) == 0x1_0000_0000_0000;
  }

  // ---- reading ---------------------------------------------------------------

  datatype Meta = Meta(offset: SizeT, nbytes: SizeT, dtype: DType, shape: seq<int>)

  /** A view into the mapped file: where the tensor's bytes are, and what they are. */
  datatype View = View(start: nat, nbytes: nat, dtype: DType, shape: seq<int>)

  datatype Shard = Shard(file: string, header: string, tensors: map<string, Meta>)

  /** The integer field of a value, zero for every other kind. */
  function IntField(v: Value): int { if v.Int? then v.i else 0 }

  function IntsOf(vs: seq<Value>): seq<int> {
    if vs == [] then [] else (if vs[0].Int? then [vs[0].i] else []) + IntsOf(vs[1..])
  }

  /** One header entry; absent where the reader skips it. */
  function MetaOf(v: Value): Option<Meta> {
    if v.Object? && "dtype" in v.obj && v.obj["dtype"].Str?
       && "data_offsets" in v.obj && v.obj["data_offsets"].Array? && |v.obj["data_offsets"].arr| >= 2 then
      var shape := if "shape" in v.obj && v.obj["shape"].Array? then IntsOf(v.obj["shape"].arr) else [];
      var start := IntField(v.obj["data_offsets"].arr[0]);
      var end := IntField(v.obj["data_offsets"].arr[1]);
      Some(Meta(Wrap(start), Wrap(end - start), DTypeFromString(v.obj["dtype"].s), shape))
    else None
  }

  function TensorsOf(obj: map<string, Value>): map<string, Meta> {
    map name | name in obj && name != "__metadata__" && MetaOf(obj[name]).Some? :: MetaOf(obj[name]).value
  }

  /**
   open: absent where it fails or throws. A length so large that 8 + length wraps around
   passes the test of the code and then throws when the header string is made.
   */
  function Open(file: string): Option<Shard> {
    if |file| < 8 then None
    else
      var hlen := FromLittleEndian(file[..8]);
      if hlen == 0 || Wrap(8 + hlen) > |file| then None
      else if 8 + hlen >= SIZE_LIMIT then None
      else
        var header := file[8..8 + hlen];
        var root := Parse(header);
        if root.None? || !root.value.1 || !root.value.0.Object? then None
        else Some(Shard(file, header, TensorsOf(root.value.0.obj)))
  }

  function Lookup(sh: Shard, name: string): Option<View> {
    if name !in sh.tensors || sh.header == [] || |sh.file| < 8 then None
    else
      var m := sh.tensors[name];
      Some(View(8 + FromLittleEndian(sh.file[..8]) + m.offset, m.nbytes, m.dtype, m.shape))
  }

  /** The bytes a view shows. */
  function Shown(file: string, v: View): string
    requires v.start + v.nbytes <= |file|
  {
    file[v.start..v.start + v.nbytes]
  }

  // ---- writing ---------------------------------------------------------------

  datatype Tensor = Tensor(name: string, dtype: string, shape: seq<int>, data: string)

  function HexDigit(n: nat): char
    requires n < 16
  {
    if n < 10 then ('0' as int + n) as char else ('a' as int + n - 10) as char
  }

  /** `\u` and four hexadecimal digits: an escape the reader does not know, then characters as they are. */
  function HexEscape(n: nat): seq<Spelling>
    requires n < 0x1_0000
  {
    [Escaped('u'), Raw(HexDigit(n / 0x1000)), Raw(HexDigit(n / 0x100 % 0x10)), Raw(HexDigit(n / 0x10 % 0x10)),
     Raw(HexDigit(n % 0x10))]
  }

  /** How json.dumps writes a character; beyond 16 bits, as a surrogate pair. */
  function SpellChar(c: char): seq<Spelling> {
    if c == '\"' || c == '\\' || c == '\n' || c == '\r' || c == '\t' then [Escaped(c)]
    else if c as int == 8 then [Escaped('b')]
    else if c as int == 12 then [Escaped('f')]
    else if ' ' <= c <= '~' then [Raw(c)]
    else if c as int < 0x1_0000 then HexEscape(c as int)
    else HexEscape(0xd800 + (c as int - 0x1_0000) / 0x400) + HexEscape(0xdc00 + (c as int - 0x1_0000) % 0x400)
  }

  function Spell(t: string): seq<Spelling> { if t == [] then [] else SpellChar(t[0]) + Spell(t[1..]) }

  /** What the reader makes of `t` as json.dumps writes it. */
  function Reads(t: string): string { Chars(Spell(t)) }

  function Bare(d: Doc): Padded { Padded([], d, []) }

  function Ints(ns: seq<int>): Doc {
    DArray([], seq(|ns|, i requires 0 <= i < |ns| => Bare(DInt(ns[i]))))
  }

  function Field(key: string, d: Doc): Member { Member([], Spell(key), [], Bare(d)) }

  function EntryDoc(t: Tensor, start: nat): Doc {
    DObject([], [Field("dtype", DStr(Spell(t.dtype))), Field("shape", Ints(t.shape)),
                 Field("data_offsets", Ints([start, start + |t.data|]))])
  }

  /** The data section: the tensors' bytes, one after another. */
  function Data(ts: seq<Tensor>): string {
    if ts == [] then [] else Data(ts[..|ts| - 1]) + ts[|ts| - 1].data
  }

  function Entries(ts: seq<Tensor>): seq<Member> {
    if ts == [] then []
    else
      var n := |ts| - 1;
      Entries(ts[..n]) + [Field(ts[n].name, EntryDoc(ts[n], |Data(ts[..n])|))]
  }

  function HeaderDoc(ts: seq<Tensor>): Doc { DObject([], Entries(ts)) }

  function HeaderText(ts: seq<Tensor>): string { PrintPadded(Bare(HeaderDoc(ts))) }

  /** The shard the generator writes. */
  function Written(ts: seq<Tensor>): string {
    ToLittleEndian(|HeaderText(ts)|, 8) + HeaderText(ts) + Data(ts)
  }

  // ---- what can be written ---------------------------------------------------------

  /** The characters the reader decodes as they were written. */
  predicate Plain(t: string) {
    forall i :: 0 <= i < |t| ==> ' ' <= t[i] <= '~' || t[i] == '\n' || t[i] == '\r' || t[i] == '\t'
  }

  /** No name reads as the one the reader skips, and all numbers fit. Names may read alike. */
  ghost predicate Writable(ts: seq<Tensor>) {
    && (forall i :: 0 <= i < |ts| ==> WritableTensor(ts[i]))
    && |Data(ts)| <= INT64_MAX && 8 + |HeaderText(ts)| < SIZE_LIMIT
  }

  /** Tensor `i` is the last one whose name reads as its own does: the one the reader keeps. */
  predicate LastNamed(ts: seq<Tensor>, i: int) {
    0 <= i < |ts| && forall j :: i < j < |ts| ==> Reads(ts[j].name) != Reads(ts[i].name)
  }

  predicate WritableTensor(t: Tensor) {
    && Reads(t.name) != "__metadata__"
    && forall i :: 0 <= i < |t.shape| ==> INT64_MIN <= t.shape[i] <= INT64_MAX
  }
}
