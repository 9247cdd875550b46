/** Opening a written shard and looking a tensor up gives back its bytes, type and shape. */
module SafetensorsRoundTrip {
  import opened Wrappers
  import opened ArenaSpec
  import opened JsonSpec
  import opened JsonRoundTrip
  import opened SafetensorsSpec

  // ---- pieces of the header --------------------------------------------------------

  lemma HexGood(n: nat)
    requires n < 0x1_0000
    ensures GoodString(HexEscape(n))
  {
  }

  lemma SpellCharGood(c: char)
    ensures GoodString(SpellChar(c))
  {
    hide HexEscape;
    if c as int < 0x1_0000 {
      HexGood(c as int);
    } else {
      HexGood(0xd800 + (c as int - 0x1_0000) / 0x400);
      HexGood(0xdc00 + (c as int - 0x1_0000) % 0x400);
    }
  }

  lemma {:induction false} SpellGood(t: string)
    ensures GoodString(Spell(t))
  {
    hide GoodSpelling, SpellChar;
    if t != [] {
      SpellCharGood(t[0]);
      SpellGood(t[1..]);
    }
  }

  lemma {:induction false} CharsConcat(a: seq<Spelling>, b: seq<Spelling>)
    ensures Chars(a + b) == Chars(a) + Chars(b) && |Chars(a)| == |a|
  {
    if a == [] {
      assert a + b == b;
    } else {
      assert (a + b)[1..] == a[1..] + b;
      CharsConcat(a[1..], b);
    }
  }

  lemma SpellCharShape(c: char)
    ensures |SpellChar(c)| >= 1 && (Plain([c]) ==> |SpellChar(c)| == 1 && SpellChar(c)[0].c == c)
    ensures !Plain([c]) ==> |SpellChar(c)| > 1 || SpellChar(c)[0].c != c
  {
    assert [c][0] == c;
  }

  lemma ReadsFirst(t: string)
    requires t != []
    ensures Reads(t) == Chars(SpellChar(t[0])) + Reads(t[1..]) && |Chars(SpellChar(t[0]))| == |SpellChar(t[0])|
    ensures |SpellChar(t[0])| == 1 ==> Chars(SpellChar(t[0])) == [SpellChar(t[0])[0].c]
  {
    hide SpellChar;
    CharsConcat(SpellChar(t[0]), Spell(t[1..]));
  }

  lemma {:induction false} ReadsLonger(t: string)
    ensures |Reads(t)| >= |t|
  {
    hide Reads, SpellChar;
    if t != [] {
      ReadsFirst(t);
      SpellCharShape(t[0]);
      ReadsLonger(t[1..]);
    }
  }

  /** A name reads back as itself exactly if it is made of printable ASCII characters, newlines, returns and tabs. */
  lemma {:induction false} ReadsItselfIff(t: string)
    ensures Reads(t) == t <==> Plain(t)
  {
    if t == [] {
      assert Reads(t) == [];
    } else {
      PlainFirst(t);
      hide Reads, SpellChar, Plain;
      ReadsFirst(t);
      SpellCharShape(t[0]);
      ReadsLonger(t[1..]);
      ReadsItselfIff(t[1..]);
      assert t == [t[0]] + t[1..];
      if Reads(t) == t {
        assert |SpellChar(t[0])| == 1;
        assert Reads(t)[0] == SpellChar(t[0])[0].c;
        assert Reads(t)[1..] == Reads(t[1..]);
      }
    }
  }

  lemma PlainFirst(t: string)
    requires t != []
    ensures Plain(t) <==> Plain([t[0]]) && Plain(t[1..])
  {
    if Plain([t[0]]) && Plain(t[1..]) {
      forall i | 0 <= i < |t| ensures ' ' <= t[i] <= '~' || t[i] == '\n' || t[i] == '\r' || t[i] == '\t' {
        assert if i == 0 then t[i] == [t[0]][0] else t[i] == t[1..][i - 1];
      }
    }
  }

  predicate InRange(ns: seq<int>) { forall i :: 0 <= i < |ns| ==> INT64_MIN <= ns[i] <= INT64_MAX }

  lemma IntsGood(ns: seq<int>)
    requires InRange(ns)
    ensures Good(Ints(ns))
  {
    var items := Ints(ns).items;
    forall i | 0 <= i < |items| ensures GoodPadded(items[i]) {
      assert items[i] == Bare(DInt(ns[i]));
    }
  }

  function IntValues(ns: seq<int>): seq<Value> { seq(|ns|, i requires 0 <= i < |ns| => Int(ns[i])) }

  lemma {:induction false} IntsDenote(ns: seq<int>)
    ensures DenoteItems(Ints(ns).items) == IntValues(ns)
  {
    if ns != [] {
      assert Ints(ns).items[1..] == Ints(ns[1..]).items;
      IntsDenote(ns[1..]);
      assert IntValues(ns) == [Int(ns[0])] + IntValues(ns[1..]);
    }
  }

  lemma {:induction false} IntsBack(ns: seq<int>)
    ensures IntsOf(IntValues(ns)) == ns
  {
    if ns != [] {
      assert IntValues(ns)[1..] == IntValues(ns[1..]);
      IntsBack(ns[1..]);
    }
  }

  lemma FieldGood(key: string, d: Doc)
    requires Good(d)
    ensures GoodMember(Field(key, d))
  {
    hide Good, Spell;
    SpellGood(key);
  }

  lemma EntryGood(t: Tensor, start: nat)
    requires WritableTensor(t) && start + |t.data| <= INT64_MAX
    ensures Good(EntryDoc(t, start))
  {
    hide Spell, GoodMember, Ints;
    SpellGood(t.dtype);
    IntsGood(t.shape);
    IntsGood([start, start + |t.data|]);
    FieldGood("dtype", DStr(Spell(t.dtype)));
    FieldGood("shape", Ints(t.shape));
    FieldGood("data_offsets", Ints([start, start + |t.data|]));
  }

  /** What one header entry denotes. */
  function EntryValue(t: Tensor, start: nat): Value {
    Object(map["dtype" := Str(Reads(t.dtype)), "shape" := Array(IntValues(t.shape)),
               "data_offsets" := Array(IntValues([start, start + |t.data|]))])
  }

  lemma {:induction false} DenoteSnoc(ms: seq<Member>, m: Member, acc: map<string, Value>)
    ensures DenoteMembers(ms + [m], acc) == DenoteMembers(ms, acc)[Chars(m.key) := Denote(m.value.doc)]
    decreases |ms|
  {
    hide Denote, Chars;
    if ms == [] {
      assert [] + [m] == [m] && [m][1..] == [];
    } else {
      assert (ms + [m])[1..] == ms[1..] + [m];
      DenoteSnoc(ms[1..], m, acc[Chars(ms[0].key) := Denote(ms[0].value.doc)]);
    }
  }

  lemma DenoteField(key: string, d: Doc)
    ensures Chars(Field(key, d).key) == Reads(key) && Field(key, d).value.doc == d
    ensures Plain(key) ==> Chars(Field(key, d).key) == key
  {
    hide Chars, Spell, Plain;
    ReadsItselfIff(key);
  }

  lemma KeysPlain()
    ensures Plain("dtype") && Plain("shape") && Plain("data_offsets")
  {
  }

  lemma ReadsText(t: string)
    ensures Chars(Spell(t)) == Reads(t)
  {
  }

  lemma EntryDenotes(t: Tensor, start: nat)
    ensures Denote(EntryDoc(t, start)) == EntryValue(t, start)
  {
    hide Chars, Spell, Field, DenoteItems, Plain, Reads;
    ReadsText(t.dtype);
    KeysPlain();
    var a := Field("dtype", DStr(Spell(t.dtype)));
    var b := Field("shape", Ints(t.shape));
    var c := Field("data_offsets", Ints([start, start + |t.data|]));
    DenoteField("dtype", DStr(Spell(t.dtype)));
    DenoteField("shape", Ints(t.shape));
    DenoteField("data_offsets", Ints([start, start + |t.data|]));
    IntsDenote(t.shape);
    IntsDenote([start, start + |t.data|]);
    DenoteSnoc([], a, map[]);
    DenoteSnoc([a], b, map[]);
    DenoteSnoc([a, b], c, map[]);
    assert [] + [a] == [a] && [a] + [b] == [a, b] && [a, b] + [c] == [a, b, c];
  }

  lemma EntryMeta(t: Tensor, start: nat)
    requires start + |t.data| <= INT64_MAX
    ensures MetaOf(EntryValue(t, start)) == Some(Meta(start, |t.data|, DTypeFromString(Reads(t.dtype)), t.shape))
  {
    hide DTypeFromString;
    var v := EntryValue(t, start).obj;
    assert "dtype" in v && "shape" in v && "data_offsets" in v;
    IntsBack(t.shape);
    assert v["data_offsets"].arr[0] == Int(start) && v["data_offsets"].arr[1] == Int(start + |t.data|);
  }

  // ---- the whole header -----------------------------------------------------------

  /** Where tensor `i` starts in the data section. */
  function StartOf(ts: seq<Tensor>, i: nat): nat
    requires i <= |ts|
  {
    |Data(ts[..i])|
  }

  lemma {:induction false} DataSlice(ts: seq<Tensor>, i: nat)
    requires i < |ts|
    ensures StartOf(ts, i) + |ts[i].data| <= |Data(ts)|
    ensures Data(ts)[StartOf(ts, i)..StartOf(ts, i) + |ts[i].data|] == ts[i].data
  {
    var n := |ts| - 1;
    if i < n {
      DataSlice(ts[..n], i);
      assert ts[..n][..i] == ts[..i];
      var a, d := StartOf(ts, i), Data(ts[..n]);
      assert Data(ts)[a..a + |ts[i].data|] == d[a..a + |ts[i].data|];
    } else {
      assert Data(ts) == Data(ts[..i]) + ts[i].data;
    }
  }

  lemma {:induction false} EntriesGood(ts: seq<Tensor>, i: nat)
    requires (forall j :: 0 <= j < |ts| ==> WritableTensor(ts[j])) && |Data(ts)| <= INT64_MAX
    requires i < |Entries(ts)|
    ensures GoodMember(Entries(ts)[i])
  {
    hide Field, EntryDoc, WritableTensor, GoodMember, Good;
    var n := |ts| - 1;
    if i < |Entries(ts[..n])| {
      EntriesGood(ts[..n], i);
    } else {
      EntryGood(ts[n], |Data(ts[..n])|);
      FieldGood(ts[n].name, EntryDoc(ts[n], |Data(ts[..n])|));
    }
  }

  /** The header's members denote, under each name read, the entry of the last tensor so named, and nothing else. */
  ghost predicate Lists(m: map<string, Value>, ts: seq<Tensor>) {
    && (forall i :: LastNamed(ts, i) ==>
          Reads(ts[i].name) in m && m[Reads(ts[i].name)] == EntryValue(ts[i], StartOf(ts, i)))
    && (forall name :: name in m ==> exists i :: LastNamed(ts, i) && Reads(ts[i].name) == name)
  }

  lemma ListsSnoc(m: map<string, Value>, ts: seq<Tensor>)
    requires ts != [] && Lists(m, ts[..|ts| - 1])
    ensures var n := |ts| - 1; Lists(m[Reads(ts[n].name) := EntryValue(ts[n], StartOf(ts, n))], ts)
  {
    hide EntryValue, Data, Reads;
    var n := |ts| - 1;
    var m' := m[Reads(ts[n].name) := EntryValue(ts[n], StartOf(ts, n))];
    forall i | LastNamed(ts, i)
      ensures Reads(ts[i].name) in m' && m'[Reads(ts[i].name)] == EntryValue(ts[i], StartOf(ts, i))
    {
      if i < n {
        assert LastNamed(ts[..n], i);
        assert ts[..n][i] == ts[i] && ts[..n][..i] == ts[..i];
      }
    }
    forall name | name in m' ensures exists i :: LastNamed(ts, i) && Reads(ts[i].name) == name {
      if name == Reads(ts[n].name) {
        assert LastNamed(ts, n);
      } else {
        var i :| LastNamed(ts[..n], i) && Reads(ts[..n][i].name) == name;
        StaysLast(ts, i);
      }
    }
  }

  lemma StaysLast(ts: seq<Tensor>, i: int)
    requires ts != [] && LastNamed(ts[..|ts| - 1], i) && Reads(ts[|ts| - 1].name) != Reads(ts[i].name)
    ensures LastNamed(ts, i)
  {
    hide Reads;
    var n := |ts| - 1;
    forall j | i < j < |ts| ensures Reads(ts[j].name) != Reads(ts[i].name) {
      if j < n { assert ts[..n][j] == ts[j]; }
    }
  }

  lemma NoneListed()
    ensures Lists(DenoteMembers(Entries([]), map[]), [])
  {
  }

  lemma {:induction false} HeaderLists(ts: seq<Tensor>)
    ensures Lists(DenoteMembers(Entries(ts), map[]), ts)
  {
    hide Field, EntryDoc, EntryValue, Lists, Denote, Chars, Data, Reads;
    if ts == [] {
      NoneListed();
    } else {
      var n := |ts| - 1;
      var d := EntryDoc(ts[n], |Data(ts[..n])|);
      HeaderLists(ts[..n]);
      DenoteSnoc(Entries(ts[..n]), Field(ts[n].name, d), map[]);
      DenoteField(ts[n].name, d);
      EntryDenotes(ts[n], |Data(ts[..n])|);
      ListsSnoc(DenoteMembers(Entries(ts[..n]), map[]), ts);
    }
  }

  lemma HeaderParses(ts: seq<Tensor>)
    requires Writable(ts)
    ensures Parse(HeaderText(ts)) == Some((Object(DenoteMembers(Entries(ts), map[])), true))
    ensures |HeaderText(ts)| >= 2
  {
    hide Entries, Parse, PrintMembers, DenoteMembers;
    var d := HeaderDoc(ts);
    forall i | 0 <= i < |Entries(ts)| ensures GoodMember(Entries(ts)[i]) { EntriesGood(ts, i); }
    assert Good(d);
    RoundTrip(Bare(d));
  }

  // ---- the round trip --------------------------------------------------------------

  lemma WrittenParts(ts: seq<Tensor>)
    requires |HeaderText(ts)| < SIZE_LIMIT
    ensures var f, h := Written(ts), HeaderText(ts);
            && |f| == 8 + |h| + |Data(ts)| && FromLittleEndian(f[..8]) == |h|
            && f[8..8 + |h|] == h && f[8 + |h|..] == Data(ts)
  {
    hide HeaderText, Data, ToLittleEndian, FromLittleEndian;
    Pow256Eight();
    LittleEndianInverse(|HeaderText(ts)|, 8);
    assert Written(ts)[..8] == ToLittleEndian(|HeaderText(ts)|, 8);
  }

  lemma OpensWritten(ts: seq<Tensor>)
    requires Writable(ts)
    ensures Open(Written(ts)) ==
            Some(Shard(Written(ts), HeaderText(ts), TensorsOf(DenoteMembers(Entries(ts), map[]))))
  {
    hide HeaderText, Data, Written, Parse, Entries, DenoteMembers, TensorsOf, FromLittleEndian;
    WrittenParts(ts);
    HeaderParses(ts);
  }

  lemma TensorListed(ts: seq<Tensor>, i: nat)
    requires Writable(ts) && LastNamed(ts, i)
    ensures var m := TensorsOf(DenoteMembers(Entries(ts), map[]));
            && Reads(ts[i].name) in m
            && m[Reads(ts[i].name)].offset == StartOf(ts, i) && m[Reads(ts[i].name)].nbytes == |ts[i].data|
            && m[Reads(ts[i].name)].dtype == DTypeFromString(Reads(ts[i].dtype))
            && m[Reads(ts[i].name)].shape == ts[i].shape
  {
    hide HeaderText, Data, Entries, DenoteMembers, EntryValue, MetaOf, DTypeFromString, Reads;
    HeaderLists(ts);
    DataSlice(ts, i);
    EntryMeta(ts[i], StartOf(ts, i));
    assert WritableTensor(ts[i]);
  }

  /**
   For any writable list of tensors, whatever their names, opening the written shard succeeds.
   Looking a tensor up under the name it reads as (its own, exactly if that is plain) gives
   a view of exactly its bytes, with its type and shape; of several that read alike, the
   last is the one found.
   */
  lemma WrittenLookup(ts: seq<Tensor>, i: nat)
    requires Writable(ts) && LastNamed(ts, i)
    ensures Open(Written(ts)).Some?
    ensures var v := Lookup(Open(Written(ts)).value, Reads(ts[i].name));
            && v.Some? && v.value.start + v.value.nbytes <= |Written(ts)|
            && Shown(Written(ts), v.value) == ts[i].data
            && v.value.dtype == DTypeFromString(Reads(ts[i].dtype)) && v.value.shape == ts[i].shape
  {
    hide HeaderText, Data, Written, Entries, DenoteMembers, TensorsOf, DTypeFromString, Writable, Open,
         FromLittleEndian, Reads;
    WritableSize(ts);
    WrittenParts(ts);
    OpensWritten(ts);
    TensorListed(ts, i);
    DataSlice(ts, i);
    HeaderParses(ts);
    var f, h, a := Written(ts), |HeaderText(ts)|, StartOf(ts, i);
    assert f[8 + h..][a..a + |ts[i].data|] == f[8 + h + a..8 + h + a + |ts[i].data|];
  }

  lemma WritableSize(ts: seq<Tensor>)
    requires Writable(ts)
    ensures 8 + |HeaderText(ts)| < SIZE_LIMIT
  {
    hide HeaderText, Data;
  }

  /** A name that was not written is not found. */
  lemma UnwrittenLookup(ts: seq<Tensor>, name: string)
    requires Writable(ts) && forall i :: 0 <= i < |ts| ==> Reads(ts[i].name) != name
    ensures Open(Written(ts)).Some? && Lookup(Open(Written(ts)).value, name).None?
  {
    hide HeaderText, Data, Written, Entries, DenoteMembers, EntryValue, MetaOf, Open, Reads;
    OpensWritten(ts);
    HeaderLists(ts);
    assert name !in DenoteMembers(Entries(ts), map[]);
  }

  // ---- data types ------------------------------------------------------------------

  /** A character that is not read as itself is read as a text that begins with b, f or u. */
  lemma OddCharShows(c: char)
    requires !Plain([c])
    ensures SpellChar(c)[0].c == 'b' || SpellChar(c)[0].c == 'f' || SpellChar(c)[0].c == 'u'
  {
    assert [c][0] == c;
  }

  lemma {:induction false} OddTextShows(t: string)
    requires !Plain(t)
    ensures 'b' in Reads(t) || 'f' in Reads(t) || 'u' in Reads(t)
  {
    hide Reads, SpellChar;
    if t != [] {
      PlainFirst(t);
      ReadsFirst(t);
      if Plain([t[0]]) {
        OddTextShows(t[1..]);
      } else {
        OddCharShows(t[0]);
        SpellCharShape(t[0]);
        CharsFirst(SpellChar(t[0]));
        assert Reads(t)[0] == SpellChar(t[0])[0].c;
      }
    }
  }

  lemma CharsFirst(cs: seq<Spelling>)
    requires cs != []
    ensures Chars(cs) != [] && Chars(cs)[0] == cs[0].c
  {
  }

  lemma ReadsOnly(t: string, name: string)
    requires Plain(name) && 'b' !in name && 'f' !in name && 'u' !in name
    ensures Reads(t) == name <==> t == name
  {
    hide Reads, Plain;
    ReadsItselfIff(t);
    ReadsItselfIff(name);
    if !Plain(t) { OddTextShows(t); }
  }

  lemma TypeNamesPlain()
    ensures Plain("F32") && Plain("F16") && Plain("BF16") && Plain("F32E4M3") && Plain("F32E5M2")
  {
  }

  /** A tensor is given back with the type the writer named: one of the three 32-bit names, F16, BF16, or unknown. */
  lemma DTypeGivenBack(t: Tensor)
    ensures DTypeFromString(Reads(t.dtype)) == F32 <==>
            t.dtype == "F32" || t.dtype == "F32E4M3" || t.dtype == "F32E5M2"
    ensures DTypeFromString(Reads(t.dtype)) == F16 <==> t.dtype == "F16"
    ensures DTypeFromString(Reads(t.dtype)) == BF16 <==> t.dtype == "BF16"
  {
    TypeNamesPlain();
    hide Reads, Plain;
    ReadsOnly(t.dtype, "F32");
    ReadsOnly(t.dtype, "F16");
    ReadsOnly(t.dtype, "BF16");
    ReadsOnly(t.dtype, "F32E4M3");
    ReadsOnly(t.dtype, "F32E5M2");
  }

  /** The view of a written BF16 tensor says BF16, and so for every type. */
  lemma LookupGivesType(ts: seq<Tensor>, i: nat)
    requires Writable(ts) && LastNamed(ts, i)
    ensures Open(Written(ts)).Some? && Lookup(Open(Written(ts)).value, Reads(ts[i].name)).Some?
    ensures var d := Lookup(Open(Written(ts)).value, Reads(ts[i].name)).value.dtype; var name := ts[i].dtype;
            && (d == F32 <==> name == "F32" || name == "F32E4M3" || name == "F32E5M2")
            && (d == F16 <==> name == "F16") && (d == BF16 <==> name == "BF16")
  {
    hide Writable, Written, Open, Lookup, Reads, DTypeFromString;
    WrittenLookup(ts, i);
    DTypeGivenBack(ts[i]);
  }

  // ---- which files open --------------------------------------------------------------

  predicate Bytes(t: string) { forall i :: 0 <= i < |t| ==> t[i] as int < 256 }

  lemma {:induction false} BytesInverse(t: string)
    requires Bytes(t)
    ensures ToLittleEndian(FromLittleEndian(t), |t|) == t && FromLittleEndian(t) < Pow256(|t|)
  {
    if t != [] {
      BytesInverse(t[1..]);
      var n := FromLittleEndian(t);
      assert n % 256 == t[0] as int && n / 256 == FromLittleEndian(t[1..]);
      assert t == [t[0]] + t[1..];
    }
  }

  /** `file` is a length, a header of that length that parses to an object, and any data. */
  ghost predicate WellFormed(file: string, header: string, data: string) {
    && header != [] && 8 + |header| < SIZE_LIMIT && file == ToLittleEndian(|header|, 8) + header + data
    && Parse(header).Some? && Parse(header).value.1 && Parse(header).value.0.Object?
  }

  /** A file opens exactly if it is well-formed, and then its header is the one it was made with. */
  lemma OpensIff(file: string)
    requires Bytes(file)
    ensures Open(file).Some? <==> exists header, data :: WellFormed(file, header, data)
    ensures forall header, data :: WellFormed(file, header, data) ==>
              Open(file).Some? && Open(file).value.header == header
  {
    hide Parse, ToLittleEndian, FromLittleEndian, TensorsOf;
    if Open(file).Some? {
      var length, header := file[..8], Open(file).value.header;
      assert Bytes(length) by { assert forall i :: 0 <= i < 8 ==> length[i] == file[i]; }
      BytesInverse(length);
      assert file == file[..8] + header + file[8 + |header|..];
      assert WellFormed(file, header, file[8 + |header|..]);
    }
    forall header, data | WellFormed(file, header, data)
      ensures Open(file).Some? && Open(file).value.header == header
    {
      Pow256Eight();
      LittleEndianInverse(|header|, 8);
      assert file[..8] == ToLittleEndian(|header|, 8) && file[8..8 + |header|] == header;
    }
  }

  // ---- which entries are listed -------------------------------------------------------

  /** An entry the reader understands: a type name, and offsets of which the first two count. */
  ghost predicate Understood(v: Value, dtype: string, start: Value, end: Value, more: seq<Value>) {
    && v.Object? && "dtype" in v.obj && v.obj["dtype"] == Str(dtype)
    && "data_offsets" in v.obj && v.obj["data_offsets"] == Array([start, end] + more)
  }

  /** Every header entry but the metadata is listed exactly if it is understood. */
  lemma ListedIff(obj: map<string, Value>, name: string)
    ensures name in TensorsOf(obj) <==>
            && name in obj && name != "__metadata__"
            && exists dtype, start, end, more :: Understood(obj[name], dtype, start, end, more)
  {
    if name in obj {
      var v := obj[name];
      if MetaOf(v).Some? {
        var arr := v.obj["data_offsets"].arr;
        assert arr == [arr[0], arr[1]] + arr[2..];
        assert Understood(v, v.obj["dtype"].s, arr[0], arr[1], arr[2..]);
      }
      if dtype, start, end, more :| Understood(v, dtype, start, end, more) { assert MetaOf(v).Some?; }
    }
  }

  /** Its offset and size come from the two offsets, modulo 2^64, one that is no integer counting as zero. */
  lemma ListedAs(v: Value, dtype: string, start: Value, end: Value, more: seq<Value>)
    requires Understood(v, dtype, start, end, more)
    ensures MetaOf(v).Some?
    ensures var a := (if start.Int? then start.i else 0); var b := (if end.Int? then end.i else 0);
            && (MetaOf(v).value.offset - a) % 0x1_0000_0000_0000_0000 == 0
            && (MetaOf(v).value.nbytes - (b - a)) % 0x1_0000_0000_0000_0000 == 0
            && MetaOf(v).value.dtype == DTypeFromString(dtype)
            && ("shape" !in v.obj || !v.obj["shape"].Array? ==> MetaOf(v).value.shape == [])
            && ("shape" in v.obj && v.obj["shape"].Array? ==> MetaOf(v).value.shape == IntsOf(v.obj["shape"].arr))
  {
    hide DTypeFromString, IntsOf;
    assert ([start, end] + more)[0] == start && ([start, end] + more)[1] == end;
  }

  /** The integers of a mixed list, in order. */
  lemma {:induction false} IntsOfMixed(a: seq<Value>, b: seq<Value>)
    ensures IntsOf(a + b) == IntsOf(a) + IntsOf(b)
    ensures forall n :: IntsOf([Int(n)]) == [n]
    ensures |a| == 1 && !a[0].Int? ==> IntsOf(a) == []
  {
    hide IntsOf;
    IntsOfAppend(a, b);
    forall n ensures IntsOf([Int(n)]) == [n] { IntsOfOne(Int(n)); }
    if |a| == 1 {
      IntsOfOne(a[0]);
      assert a == [a[0]];
    }
  }

  lemma {:induction false} IntsOfAppend(a: seq<Value>, b: seq<Value>)
    ensures IntsOf(a + b) == IntsOf(a) + IntsOf(b)
  {
    if a == [] {
      assert a + b == b;
    } else {
      var own := IntsOf([a[0]]);
      IntsOfFirst(a);
      IntsOfFirst(a + b);
      hide IntsOf;
      assert (a + b)[0] == a[0];
      assert (a + b)[1..] == a[1..] + b;
      IntsOfAppend(a[1..], b);
      assert own + (IntsOf(a[1..]) + IntsOf(b)) == (own + IntsOf(a[1..])) + IntsOf(b);
    }
  }

  lemma IntsOfFirst(a: seq<Value>)
    requires a != []
    ensures IntsOf(a) == IntsOf([a[0]]) + IntsOf(a[1..])
  {
    IntsOfOne(a[0]);
  }

  lemma IntsOfOne(v: Value)
    ensures IntsOf([v]) == if v.Int? then [v.i] else []
  {
    assert [v][1..] == [];
  }
}
