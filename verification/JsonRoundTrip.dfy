/**
 Every JSON text built from objects, arrays, booleans, 64-bit integers and strings, with any
 insignificant white space (sections 2 to 7 of RFC 8259), parses without error to the value
 it denotes. The escapes for newline, tab, return, quote, backslash and slash denote those
 characters; any other escaped character stands for itself, as the reader takes it.
 */
module JsonRoundTrip {
  import opened Wrappers
  import opened JsonSpec
  import opened Decimals

  // ---- documents ----------------------------------------------------------------

  /** A string character written as itself, as an escape, or after a backslash that means nothing. */
  datatype Spelling = Raw(c: char) | Escaped(c: char) | Odd(c: char)

  /** A JSON document: its value together with how it is written. */
  datatype Doc =
    | DBool(b: bool)
    | DInt(n: int)
    | DNumber(token: string)
    | DStr(cs: seq<Spelling>)
    | DArray(blank: string, items: seq<Padded>)
    | DObject(gap: string, members: seq<Member>)

  /** A document with white space before and after it. */
  datatype Padded = Padded(pre: string, doc: Doc, post: string)

  datatype Member = Member(lead: string, key: seq<Spelling>, mid: string, value: Padded)

  predicate Blank(t: string) { forall i :: 0 <= i < |t| ==> IsSpace(t[i]) }

  predicate GoodSpelling(x: Spelling) {
    match x
    case Raw(c) => c != '\"' && c != '\\'
    case Escaped(c) => c != 'n' && c != 't' && c != 'r'
    case Odd(c) => c == '\n' || c == '\t' || c == '\r'
  }

  /** What the reader takes for a number: a minus sign or a digit, then digits, signs, points and exponent marks. */
  predicate Token(t: string) {
    t != [] && (t[0] == '-' || IsDigit(t[0])) && forall i :: 1 <= i < |t| ==> IsNumberChar(t[i])
  }

  /** A token with a point or an exponent is a float, any other an integer; absent where the conversion throws. */
  function Converted(t: string): Option<Value> {
    if '.' in t || 'e' in t || 'E' in t then if HasMantissa(t) then Some(Float(t)) else None
    else if Stoll(t).Some? then Some(Int(Stoll(t).value))
    else None
  }

  predicate GoodString(cs: seq<Spelling>) { forall i :: 0 <= i < |cs| ==> GoodSpelling(cs[i]) }

  predicate Good(d: Doc)
    decreases d
  {
    match d
    case DBool(_) => true
    case DInt(n) => INT64_MIN <= n <= INT64_MAX
    case DNumber(t) => Token(t) && Converted(t).Some?
    case DStr(cs) => GoodString(cs)
    case DArray(blank, items) => Blank(blank) && forall i :: 0 <= i < |items| ==> GoodPadded(items[i])
    case DObject(gap, members) => Blank(gap) && forall i :: 0 <= i < |members| ==> GoodMember(members[i])
  }

  predicate GoodPadded(p: Padded)
    decreases p
  {
    Blank(p.pre) && Good(p.doc) && Blank(p.post)
  }

  predicate GoodMember(m: Member)
    decreases m
  {
    Blank(m.lead) && GoodString(m.key) && Blank(m.mid) && GoodPadded(m.value)
  }

  // ---- printing ------------------------------------------------------------------

  function EscapeCode(c: char): char {
    if c == '\n' then 'n' else if c == '\t' then 't' else if c == '\r' then 'r' else c
  }

  function PrintSpelling(x: Spelling): string {
    match x
    case Raw(c) => [c]
    case Escaped(c) => ['\\', EscapeCode(c)]
    case Odd(c) => ['\\', c]
  }

  function PrintChars(cs: seq<Spelling>): string {
    if cs == [] then [] else PrintSpelling(cs[0]) + PrintChars(cs[1..])
  }

  function Print(d: Doc): string
    decreases d, 1
  {
    match d
    case DBool(b) => if b then "true" else "false"
    case DInt(n) => PrintInt(n)
    case DNumber(t) => t
    case DStr(cs) => ['\"'] + PrintChars(cs) + ['\"']
    case DArray(blank, items) => ['['] + (if items == [] then blank else PrintItems(items)) + [']']
    case DObject(gap, members) => ['{'] + (if members == [] then gap else PrintMembers(members)) + ['}']
  }

  function PrintPadded(p: Padded): string
    decreases p, 0
  {
    p.pre + (Print(p.doc) + p.post)
  }

  /** The items separated by commas. */
  function PrintItems(items: seq<Padded>): string
    decreases items, 0
  {
    if items == [] then []
    else PrintPadded(items[0]) + if |items| == 1 then [] else [','] + PrintItems(items[1..])
  }

  /** A member from its key on. */
  function Keyed(m: Member): string
    decreases m, 0
  {
    (['\"'] + PrintChars(m.key) + ['\"']) + (m.mid + ([':'] + PrintPadded(m.value)))
  }

  function PrintMember(m: Member): string
    decreases m, 1
  {
    m.lead + Keyed(m)
  }

  function PrintMembers(members: seq<Member>): string
    decreases members, 0
  {
    if members == [] then []
    else PrintMember(members[0]) + if |members| == 1 then [] else [','] + PrintMembers(members[1..])
  }

  // ---- meaning -------------------------------------------------------------------

  function Chars(cs: seq<Spelling>): string { if cs == [] then [] else [cs[0].c] + Chars(cs[1..]) }

  function Denote(d: Doc): Value
    decreases d, 1
  {
    match d
    case DBool(b) => Bool(b)
    case DInt(n) => Int(n)
    case DNumber(t) => if Converted(t).Some? then Converted(t).value else Null
    case DStr(cs) => Str(Chars(cs))
    case DArray(_, items) => Array(DenoteItems(items))
    case DObject(_, members) => Object(DenoteMembers(members, map[]))
  }

  function DenoteItems(items: seq<Padded>): seq<Value>
    decreases items, 0
  {
    if items == [] then [] else [Denote(items[0].doc)] + DenoteItems(items[1..])
  }

  /** Members in order; of a repeated key the last value counts. */
  function DenoteMembers(members: seq<Member>, acc: map<string, Value>): map<string, Value>
    decreases members, 0
  {
    if members == [] then acc
    else DenoteMembers(members[1..], acc[Chars(members[0].key) := Denote(members[0].value.doc)])
  }

  // ---- reading what was printed: positions ---------------------------------------

  /** From position `i` on, the text is `t`. */
  predicate At(s: string, i: nat, t: string) { i <= |s| && s[i..] == t }

  lemma AtHead(s: string, i: nat, c: char, t: string)
    requires At(s, i, [c] + t)
    ensures i < |s| && s[i] == c && At(s, i + 1, t)
  {
    assert s[i] == s[i..][0];
    assert s[i + 1..] == s[i..][1..];
  }

  lemma Assoc(a: string, b: string, c: string)
    ensures a + b + c == a + (b + c)
  {
  }

  lemma AtSkip(s: string, i: nat, a: string, t: string)
    requires At(s, i, a + t)
    ensures At(s, i + |a|, t) && i + |a| <= |s| && s[i..i + |a|] == a
  {
    assert s[i + |a|..] == s[i..][|a|..];
    assert s[i..i + |a|] == s[i..][..|a|];
  }

  /** The text does not begin with a character that white space or a number could swallow. */
  predicate StartsSolid(t: string) { t != [] && !IsSpace(t[0]) }

  predicate NumberEnds(t: string) { t == [] || !IsNumberChar(t[0]) }

  lemma {:induction false} SkipsBlank(s: string, i: nat, ws: string, t: string)
    requires At(s, i, ws + t) && Blank(ws) && StartsSolid(t)
    ensures SkipSpace(s, i) == i + |ws| && At(s, i + |ws|, t)
    decreases |ws|
  {
    if ws == [] {
      assert ws + t == [t[0]] + t[1..];
      AtHead(s, i, t[0], t[1..]);
      assert ws + t == t;
    } else {
      assert ws + t == [ws[0]] + (ws[1..] + t);
      AtHead(s, i, ws[0], ws[1..] + t);
      SkipsBlank(s, i + 1, ws[1..], t);
    }
  }

  // ---- strings --------------------------------------------------------------------

  /** A backslash and a code that the reader takes for the character meant. */
  lemma EscapeInverse(x: Spelling) returns (code: char)
    requires GoodSpelling(x) && !x.Raw?
    ensures PrintSpelling(x) == ['\\', code] && Unescape(code) == x.c
  {
    code := PrintSpelling(x)[1];
  }

  lemma {:induction false} ReadsChars(s: string, i: nat, cs: seq<Spelling>, t: string)
    requires At(s, i, PrintChars(cs) + ['\"'] + t) && GoodString(cs)
    ensures StringBody(s, i) == (Chars(cs), i + |PrintChars(cs)|)
    decreases |cs|
  {
    if cs == [] {
      assert PrintChars(cs) + ['\"'] + t == ['\"'] + t;
      AtHead(s, i, '\"', t);
    } else {
      var rest := PrintChars(cs[1..]) + ['\"'] + t;
      assert PrintChars(cs) + ['\"'] + t == PrintSpelling(cs[0]) + rest;
      if cs[0].Raw? {
        AtHead(s, i, cs[0].c, rest);
        ReadsChars(s, i + 1, cs[1..], t);
      } else {
        var code := EscapeInverse(cs[0]);
        hide PrintSpelling, GoodSpelling, Unescape;
        assert PrintSpelling(cs[0]) + rest == ['\\'] + ([code] + rest);
        AtHead(s, i, '\\', [code] + rest);
        AtHead(s, i + 1, code, rest);
        ReadsChars(s, i + 2, cs[1..], t);
      }
    }
  }

  lemma ReadsString(s: string, i: nat, cs: seq<Spelling>, t: string)
    requires At(s, i, (['\"'] + PrintChars(cs) + ['\"']) + t) && GoodString(cs)
    ensures i < |s| && s[i] == '\"'
    ensures ParseString(s, i) == (Chars(cs), i + |PrintChars(cs)| + 2)
    ensures At(s, i + |PrintChars(cs)| + 2, t)
  {
    hide StringBody, PrintChars;
    var rest := PrintChars(cs) + ['\"'] + t;
    assert ['\"'] + PrintChars(cs) + ['\"'] + t == ['\"'] + rest;
    AtHead(s, i, '\"', rest);
    ReadsChars(s, i + 1, cs, t);
    assert rest == PrintChars(cs) + (['\"'] + t);
    AtSkip(s, i + 1, PrintChars(cs), ['\"'] + t);
    AtHead(s, i + 1 + |PrintChars(cs)|, '\"', t);
  }

  // ---- integers -------------------------------------------------------------------

  predicate NumberChars(t: string) { forall i :: 0 <= i < |t| ==> IsNumberChar(t[i]) }

  lemma {:induction false} NumberStops(s: string, i: nat, ds: string, t: string)
    requires At(s, i, ds + t) && NumberChars(ds) && NumberEnds(t)
    ensures NumberEnd(s, i) == i + |ds|
    decreases |ds|
  {
    if ds == [] {
      assert ds + t == t;
      if t != [] {
        assert t == [t[0]] + t[1..];
        AtHead(s, i, t[0], t[1..]);
      }
    } else {
      assert ds + t == [ds[0]] + (ds[1..] + t);
      AtHead(s, i, ds[0], ds[1..] + t);
      NumberStops(s, i + 1, ds[1..], t);
    }
  }

  lemma NoFloatMarks(t: string)
    requires AllDigits(t) || (t != [] && t[0] == '-' && AllDigits(t[1..]))
    ensures !('.' in t || 'e' in t || 'E' in t)
  {
    if !AllDigits(t) { assert t == [t[0]] + t[1..]; }
  }

  lemma StollInverse(n: int)
    requires INT64_MIN <= n <= INT64_MAX
    ensures Stoll(PrintInt(n)) == Some(n)
  {
    hide Decimal, DigitsValue, LeadingDigits;
    var ds := Decimal(if n < 0 then -n else n);
    DecimalValue(if n < 0 then -n else n);
    AllLeading(ds);
    if n < 0 {
      assert PrintInt(n)[1..] == ds;
    } else {
      assert IsDigit(ds[0]);
    }
  }

  lemma {:induction false} AllLeading(ds: string)
    requires AllDigits(ds)
    ensures LeadingDigits(ds) == ds
  {
    if ds != [] { AllLeading(ds[1..]); }
  }

  /** The extent of a number: the whole token. */
  lemma NumberExtent(s: string, i: nat, p: string, t: string)
    requires At(s, i, p + t) && NumberEnds(t) && Token(p)
    ensures i < |s| && s[i] == p[0] && i + |p| <= |s| && s[i..i + |p|] == p
    ensures NumberEnd(s, if s[i] == '-' then i + 1 else i) == i + |p|
  {
    hide NumberEnd, NumberEnds;
    assert p + t == [p[0]] + (p[1..] + t);
    AtHead(s, i, p[0], p[1..] + t);
    AtSkip(s, i, p, t);
    if p[0] == '-' {
      NumberStops(s, i + 1, p[1..], t);
    } else {
      NumberStops(s, i, p, t);
    }
  }

  /** Any token is read as the number it converts to. */
  lemma ReadsToken(s: string, i: nat, p: string, t: string)
    requires At(s, i, p + t) && NumberEnds(t) && Token(p) && Converted(p).Some?
    ensures i < |s| && (s[i] == '-' || IsDigit(s[i])) && s[i] == p[0]
    ensures ParseNumber(s, i) == Parsed(Converted(p).value, i + |p|, false)
  {
    hide Stoll, NumberEnd, NumberEnds, At, HasMantissa;
    NumberExtent(s, i, p, t);
  }

  lemma DigitsToken(p: string)
    requires p != [] && (p[0] == '-' || IsDigit(p[0])) && AllDigits(if p[0] == '-' then p[1..] else p)
    ensures Token(p)
  {
    forall i | 1 <= i < |p| ensures IsNumberChar(p[i]) {
      assert if p[0] == '-' then p[1..][i - 1] == p[i] else IsDigit(p[i]);
    }
  }

  lemma ReadsInt(s: string, i: nat, n: int, t: string)
    requires At(s, i, PrintInt(n) + t) && INT64_MIN <= n <= INT64_MAX && NumberEnds(t)
    ensures i < |s| && (s[i] == '-' || IsDigit(s[i])) && s[i] == PrintInt(n)[0]
    ensures ParseNumber(s, i) == Parsed(Int(n), i + |PrintInt(n)|, false)
  {
    hide PrintInt, Stoll, NumberEnd, AllDigits, NumberEnds, At, Token;
    PrintIntShape(n);
    StollInverse(n);
    NoFloatMarks(PrintInt(n));
    DigitsToken(PrintInt(n));
    NumberExtent(s, i, PrintInt(n), t);
  }

  // ---- whole documents -----------------------------------------------------------

  /** How a printed document begins. */
  predicate Begins(d: Doc, c: char) {
    match d
    case DBool(b) => c == if b then 't' else 'f'
    case DInt(_) => c == '-' || IsDigit(c)
    case DNumber(_) => c == '-' || IsDigit(c)
    case DStr(_) => c == '\"'
    case DArray(_, _) => c == '['
    case DObject(_, _) => c == '{'
  }

  /** A number ends where no further number character follows. */
  predicate EndsBefore(d: Doc, t: string) { d.DInt? || d.DNumber? ==> NumberEnds(t) }

  predicate Tokened(d: Doc) { d.DNumber? ==> Token(d.token) }

  lemma PrintBegins(d: Doc)
    requires Tokened(d)
    ensures Print(d) != [] && Begins(d, Print(d)[0]) && !IsSpace(Print(d)[0])
  {
    hide PrintItems, PrintMembers, PrintChars;
    if d.DInt? { PrintIntShape(d.n); hide PrintInt; }
  }

  lemma ReadsBool(s: string, i: nat, b: bool, t: string)
    requires At(s, i, (if b then "true" else "false") + t)
    ensures i < |s| && ParseBool(s, i) == Parsed(Bool(b), i + (if b then 4 else 5), false)
  {
    var w := if b then "true" else "false";
    AtSkip(s, i, w, t);
    assert s[i..i + |w|][0] == s[i];
    if !b { assert Spells(s, i, "true") ==> s[i..i + 4][0] == 't'; }
  }

  /** After the blanks, the reader is at the document. */
  lemma AtDocument(s: string, i: nat, pre: string, d: Doc, t: string)
    requires At(s, i, pre + (Print(d) + t)) && Blank(pre) && Tokened(d)
    ensures var j := i + |pre|;
            && SkipSpace(s, i) == j && At(s, j, Print(d) + t) && j < |s|
            && s[j] == Print(d)[0] && Begins(d, s[j])
  {
    hide Print, SkipSpace, Begins;
    PrintBegins(d);
    var p := Print(d);
    SkipsBlank(s, i, pre, p + t);
    assert p + t == [p[0]] + (p[1..] + t);
    AtHead(s, i + |pre|, p[0], p[1..] + t);
  }

  /** Which sub-parser ParseValue runs, by the character it finds. */
  lemma Dispatch(s: string, i: nat, j: nat)
    requires i <= |s| + 1 && SkipSpace(s, i) == j && j < |s|
    ensures s[j] == '\"' ==> ParseValue(s, i) == Parsed(Str(ParseString(s, j).0), ParseString(s, j).1, false)
    ensures s[j] == 't' || s[j] == 'f' ==> ParseValue(s, i) == ParseBool(s, j)
    ensures s[j] == '-' || IsDigit(s[j]) ==> ParseValue(s, i) == ParseNumber(s, j)
    ensures s[j] == '[' ==>
              var k := SkipSpace(s, j + 1);
              ParseValue(s, i) == if k < |s| && s[k] == ']' then Parsed(Array([]), k + 1, false)
                                  else ParseElements(s, k, [], false)
    ensures s[j] == '{' ==>
              var k := SkipSpace(s, j + 1);
              ParseValue(s, i) == if k < |s| && s[k] == '}' then Parsed(Object(map[]), k + 1, false)
                                  else ParseMembers(s, k, map[], false)
  {
    hide SkipSpace, ParseString, ParseBool, ParseNumber, ParseElements, ParseMembers;
  }

  lemma ScalarParses(s: string, i: nat, pre: string, d: Doc, t: string)
    requires At(s, i, pre + (Print(d) + t)) && Blank(pre) && Good(d) && EndsBefore(d, t)
    requires d.DBool? || d.DInt? || d.DNumber? || d.DStr?
    ensures ParseValue(s, i) == Parsed(Denote(d), i + |pre| + |Print(d)|, false)
  {
    hide SkipSpace, PrintChars, Chars, PrintInt, ParseValue, ParseNumber, ParseBool, ParseString, Blank, Token,
         Converted;
    AtDocument(s, i, pre, d, t);
    var j := i + |pre|;
    Dispatch(s, i, j);
    match d
    case DBool(b) => ReadsBool(s, j, b, t);
    case DInt(n) => ReadsInt(s, j, n, t);
    case DNumber(p) => ReadsToken(s, j, p, t);
    case DStr(cs) => ReadsString(s, j, cs, t);
  }

  // ---- lists -----------------------------------------------------------------------

  /** What follows the first item of an array, or the first member of an object. */
  function AfterItem(items: seq<Padded>): string
    requires items != []
  {
    if |items| == 1 then [] else [','] + PrintItems(items[1..])
  }

  function AfterMember(members: seq<Member>): string
    requires members != []
  {
    if |members| == 1 then [] else [','] + PrintMembers(members[1..])
  }

  /** A separator or a closing bracket comes next. */
  predicate Separated(t: string) { t != [] && t[0] in [',', ']', '}'] }

  lemma SeparatedIsSolid(t: string, ws: string)
    requires Separated(t) && Blank(ws)
    ensures StartsSolid(t) && NumberEnds(t) && NumberEnds(ws + t)
  {
  }

  /** Past one padded document, up to the separator after it. */
  lemma PastDocument(s: string, i: nat, lead: string, d: Doc, post: string, rest: string)
    requires At(s, i, lead + (Print(d) + (post + rest))) && Blank(post) && Separated(rest)
    requires ParseValue(s, i) == Parsed(Denote(d), i + |lead| + |Print(d)|, false)
    ensures var j := i + |lead| + |Print(d)| + |post|;
            SkipSpace(s, ParseValue(s, i).next) == j && At(s, j, rest)
  {
    hide ParseValue, Print, SkipSpace, Denote;
    SeparatedIsSolid(rest, post);
    AtSkip(s, i, lead, Print(d) + (post + rest));
    AtSkip(s, i + |lead|, Print(d), post + rest);
    SkipsBlank(s, i + |lead| + |Print(d)|, post, rest);
  }

  lemma ElementsLast(s: string, i: nat, acc: seq<Value>, j: nat, t: string)
    requires i <= |s| + 1 && ParseValue(s, i).Parsed? && !ParseValue(s, i).error
    requires SkipSpace(s, ParseValue(s, i).next) == j && At(s, j, [']'] + t)
    ensures ParseElements(s, i, acc, false) == Parsed(Array(acc + [ParseValue(s, i).value]), |s| - |t|, false)
  {
    hide ParseValue, SkipSpace;
    AtHead(s, j, ']', t);
  }

  lemma ElementsNext(s: string, i: nat, acc: seq<Value>, j: nat, t: string)
    requires i <= |s| + 1 && ParseValue(s, i).Parsed? && !ParseValue(s, i).error
    requires SkipSpace(s, ParseValue(s, i).next) == j && At(s, j, [','] + t)
    ensures At(s, j + 1, t)
    ensures ParseElements(s, i, acc, false) == ParseElements(s, j + 1, acc + [ParseValue(s, i).value], false)
  {
    hide ParseValue, SkipSpace;
    AtHead(s, j, ',', t);
  }

  /** The key and the colon of one member. */
  lemma MemberKey(s: string, i: nat, lead: string, m: Member, t: string)
    requires At(s, i, lead + (Keyed(m) + t)) && Blank(lead) && GoodString(m.key) && Blank(m.mid)
    ensures var v := ValueStart(i, lead, m);
            ParseKey(s, i) == (Some(Chars(m.key)), v) && At(s, v, PrintPadded(m.value) + t)
  {
    hide SkipSpace, PrintChars, Chars, ParseString, PrintPadded, GoodString, Blank;
    var key, v := ['\"'] + PrintChars(m.key) + ['\"'], PrintPadded(m.value);
    var colon := [':'] + (v + t);
    assert Keyed(m) + t == key + (m.mid + colon) by {
      Assoc(key, m.mid + ([':'] + v), t);
      Assoc(m.mid, [':'] + v, t);
      Assoc([':'], v, t);
    }
    assert key[0] == '\"';
    var j := i + |lead|;
    SkipsBlank(s, i, lead, key + (m.mid + colon));
    ReadsString(s, j, m.key, m.mid + colon);
    var k := j + |PrintChars(m.key)| + 2;
    SkipsBlank(s, k, m.mid, colon);
    AtHead(s, k + |m.mid|, ':', v + t);
  }

  /** Where the value of a member starts. */
  function ValueStart(i: nat, lead: string, m: Member): nat { i + |lead| + |PrintChars(m.key)| + 2 + |m.mid| + 1 }

  /** The cursor facts one iteration of the member loop goes by. */
  ghost predicate MemberAt(s: string, i: nat, key: string, v: nat) {
    && i <= |s| + 1 && ParseKey(s, i) == (Some(key), v)
    && ParseValue(s, v).Parsed? && !ParseValue(s, v).error
  }

  lemma MembersLast(s: string, i: nat, acc: map<string, Value>, key: string, v: nat, n: nat, t: string)
    requires MemberAt(s, i, key, v)
    requires SkipSpace(s, ParseValue(s, v).next) == n && At(s, n, ['}'] + t)
    ensures ParseMembers(s, i, acc, false) ==
            Parsed(Object(acc[key := ParseValue(s, v).value]), |s| - |t|, false)
  {
    hide ParseValue, ParseKey, SkipSpace;
    AtHead(s, n, '}', t);
  }

  lemma MembersNext(s: string, i: nat, acc: map<string, Value>, key: string, v: nat, n: nat, t: string)
    requires MemberAt(s, i, key, v)
    requires SkipSpace(s, ParseValue(s, v).next) == n && At(s, n, [','] + t)
    ensures At(s, n + 1, t)
    ensures ParseMembers(s, i, acc, false) ==
            ParseMembers(s, n + 1, acc[key := ParseValue(s, v).value], false)
  {
    hide ParseValue, ParseKey, SkipSpace;
    AtHead(s, n, ',', t);
  }

  // ---- how lists unfold ------------------------------------------------------------

  lemma PaddedThen(p: Padded, t: string)
    ensures PrintPadded(p) + t == p.pre + (Print(p.doc) + (p.post + t))
  {
    hide Print;
    Assoc(p.pre, Print(p.doc) + p.post, t);
    Assoc(Print(p.doc), p.post, t);
  }

  lemma ItemsThen(items: seq<Padded>, t: string)
    requires items != []
    ensures PrintItems(items) + t ==
            items[0].pre + (Print(items[0].doc) + (items[0].post + (AfterItem(items) + t)))
  {
    hide Print, PrintPadded;
    Assoc(PrintPadded(items[0]), AfterItem(items), t);
    PaddedThen(items[0], AfterItem(items) + t);
  }

  lemma MembersThen(members: seq<Member>, t: string)
    requires members != []
    ensures PrintMembers(members) + t == members[0].lead + (Keyed(members[0]) + (AfterMember(members) + t))
  {
    hide Keyed;
    Assoc(PrintMember(members[0]), AfterMember(members), t);
    Assoc(members[0].lead, Keyed(members[0]), AfterMember(members) + t);
  }

  lemma AfterSeparated(after: string, close: char, t: string)
    requires after == [] || after[0] == ','
    requires close == ']' || close == '}'
    ensures Separated(after + ([close] + t))
  {
  }

  /** Past an opening bracket and the blanks after it. */
  lemma Opens(s: string, i: nat, pre: string, d: Doc, open: char, ws: string, rest: string, t: string)
    requires At(s, i, pre + (Print(d) + t)) && Blank(pre) && Blank(ws) && Tokened(d)
    requires Print(d) + t == [open] + (ws + rest) && StartsSolid(rest)
    ensures var j := i + |pre|; var k := j + 1 + |ws|;
            && SkipSpace(s, i) == j && j < |s| && s[j] == open
            && SkipSpace(s, j + 1) == k && At(s, k, rest) && k < |s| && s[k] == rest[0]
  {
    hide Print, SkipSpace, Blank, Begins;
    AtDocument(s, i, pre, d, t);
    AtHead(s, i + |pre|, open, ws + rest);
    SkipsBlank(s, i + |pre| + 1, ws, rest);
    assert rest == [rest[0]] + rest[1..];
    AtHead(s, i + |pre| + 1 + |ws|, rest[0], rest[1..]);
  }

  lemma BracketThen(open: char, inside: string, close: char, t: string)
    ensures [open] + inside + [close] + t == [open] + (inside + ([close] + t))
  {
  }

  lemma EmptyArray(s: string, i: nat, pre: string, blank: string, t: string)
    requires At(s, i, pre + (Print(DArray(blank, [])) + t)) && Blank(pre) && Blank(blank)
    ensures ParseValue(s, i) == Parsed(Array([]), |s| - |t|, false)
  {
    hide SkipSpace, Blank, ParseValue, ParseElements;
    BracketThen('[', blank, ']', t);
    Opens(s, i, pre, DArray(blank, []), '[', blank, [']'] + t, t);
    Dispatch(s, i, i + |pre|);
  }

  lemma EmptyObject(s: string, i: nat, pre: string, gap: string, t: string)
    requires At(s, i, pre + (Print(DObject(gap, [])) + t)) && Blank(pre) && Blank(gap)
    ensures ParseValue(s, i) == Parsed(Object(map[]), |s| - |t|, false)
  {
    hide SkipSpace, Blank, ParseValue, ParseMembers;
    BracketThen('{', gap, '}', t);
    Opens(s, i, pre, DObject(gap, []), '{', gap, ['}'] + t, t);
    Dispatch(s, i, i + |pre|);
  }

  lemma NotClosing(d: Doc)
    requires Tokened(d)
    ensures Print(d) != [] && Print(d)[0] != ']' && !IsSpace(Print(d)[0])
  {
    hide Print;
    PrintBegins(d);
  }

  lemma ArrayOpens(s: string, i: nat, pre: string, blank: string, items: seq<Padded>, t: string)
    requires At(s, i, pre + (Print(DArray(blank, items)) + t)) && Blank(pre)
    requires items != [] && Blank(items[0].pre) && Tokened(items[0].doc)
    ensures var k := i + |pre| + 1 + |items[0].pre|;
            && k <= |s| && ParseValue(s, i) == ParseElements(s, k, [], false)
            && At(s, k, Print(items[0].doc) + (items[0].post + (AfterItem(items) + ([']'] + t))))
  {
    hide SkipSpace, Blank, ParseValue, ParseElements, PrintItems;
    var d, p := DArray(blank, items), Print(items[0].doc);
    var rest := p + (items[0].post + (AfterItem(items) + ([']'] + t)));
    BracketThen('[', PrintItems(items), ']', t);
    ItemsThen(items, [']'] + t);
    NotClosing(items[0].doc);
    assert Print(d) + t == ['['] + (items[0].pre + rest);
    hide Print, AfterItem;
    assert rest[0] == p[0];
    Opens(s, i, pre, d, '[', items[0].pre, rest, t);
    Dispatch(s, i, i + |pre|);
  }

  lemma KeyedQuote(m: Member, t: string)
    ensures (Keyed(m) + t)[0] == '\"'
  {
    hide PrintChars, PrintPadded;
  }

  lemma ObjectOpens(s: string, i: nat, pre: string, gap: string, members: seq<Member>, t: string)
    requires At(s, i, pre + (Print(DObject(gap, members)) + t)) && Blank(pre)
    requires members != [] && Blank(members[0].lead)
    ensures var k := i + |pre| + 1 + |members[0].lead|;
            && k <= |s| && ParseValue(s, i) == ParseMembers(s, k, map[], false)
            && At(s, k, Keyed(members[0]) + (AfterMember(members) + (['}'] + t)))
  {
    hide SkipSpace, Blank, ParseValue, ParseMembers, PrintMembers, Keyed;
    var d := DObject(gap, members);
    var rest := Keyed(members[0]) + (AfterMember(members) + (['}'] + t));
    BracketThen('{', PrintMembers(members), '}', t);
    MembersThen(members, ['}'] + t);
    KeyedQuote(members[0], AfterMember(members) + (['}'] + t));
    assert Print(d) + t == ['{'] + (members[0].lead + rest);
    hide Print, AfterMember;
    assert rest != [];
    Opens(s, i, pre, d, '{', members[0].lead, rest, t);
    Dispatch(s, i, i + |pre|);
  }

  // ---- the induction ---------------------------------------------------------------

  /** A printed document, after blanks and before `t`, parses to its value and stops there. */
  lemma {:induction false} DocParses(s: string, i: nat, pre: string, d: Doc, t: string)
    requires At(s, i, pre + (Print(d) + t)) && Blank(pre) && Good(d) && EndsBefore(d, t)
    ensures ParseValue(s, i) == Parsed(Denote(d), i + |pre| + |Print(d)|, false)
    decreases d, 1
  {
    hide Blank, Print, ParseValue, ParseElements, ParseMembers, SkipSpace, NumberEnds, DenoteItems, DenoteMembers,
         AfterItem, AfterMember, Keyed;
    match d
    case DArray(blank, items) =>
      if items == [] {
        EmptyArray(s, i, pre, blank, t);
        NoItems();
      } else {
        assert GoodPadded(items[0]);
        GoodTokened(items[0].doc);
        ArrayOpens(s, i, pre, blank, items, t);
        var rest := Print(items[0].doc) + (items[0].post + (AfterItem(items) + ([']'] + t)));
        assert [] + rest == rest;
        BlankEmpty();
        ElementsParse(s, i + |pre| + 1 + |items[0].pre|, [], items, [], t);
        assert [] + DenoteItems(items) == DenoteItems(items);
      }
    case DObject(gap, members) =>
      if members == [] {
        EmptyObject(s, i, pre, gap, t);
        NoItems();
      } else {
        assert GoodMember(members[0]);
        ObjectOpens(s, i, pre, gap, members, t);
        var rest := Keyed(members[0]) + (AfterMember(members) + (['}'] + t));
        assert [] + rest == rest;
        BlankEmpty();
        MembersParse(s, i + |pre| + 1 + |members[0].lead|, [], members, map[], t);
      }
    case _ => ScalarParses(s, i, pre, d, t);
  }

  lemma GoodTokened(d: Doc)
    requires Good(d)
    ensures Tokened(d)
  {
  }

  lemma NoItems()
    ensures DenoteItems([]) == [] && DenoteMembers([], map[]) == map[]
  {
  }

  lemma BlankEmpty()
    ensures Blank([])
  {
  }

  lemma AfterItemShape(items: seq<Padded>)
    requires items != []
    ensures AfterItem(items) == [] || AfterItem(items)[0] == ','
  {
    hide PrintItems;
  }

  lemma AfterMemberShape(members: seq<Member>)
    requires members != []
    ensures AfterMember(members) == [] || AfterMember(members)[0] == ','
  {
    hide PrintMembers;
  }

  lemma AfterMemberIs(members: seq<Member>)
    requires members != []
    ensures |members| == 1 ==> AfterMember(members) == []
    ensures |members| > 1 ==> AfterMember(members) == [','] + PrintMembers(members[1..])
  {
    hide PrintMembers;
  }

  /** The items from the first one on, its leading blanks replaced by `lead`. */
  lemma {:induction false} ElementsParse(s: string, i: nat, lead: string, items: seq<Padded>, acc: seq<Value>,
                                         t: string)
    requires items != [] && (forall q :: 0 <= q < |items| ==> GoodPadded(items[q])) && Blank(lead)
    requires At(s, i, lead + (Print(items[0].doc) + (items[0].post + (AfterItem(items) + ([']'] + t)))))
    ensures ParseElements(s, i, acc, false) == Parsed(Array(acc + DenoteItems(items)), |s| - |t|, false)
    decreases items, 0
  {
    hide ParseValue, ParseElements, SkipSpace, Print, Denote, Blank, NumberEnds, PrintItems;
    var p, rest := items[0], AfterItem(items) + ([']'] + t);
    AfterItemShape(items);
    AfterSeparated(AfterItem(items), ']', t);
    SeparatedIsSolid(rest, p.post);
    DocParses(s, i, lead, p.doc, p.post + rest);
    PastDocument(s, i, lead, p.doc, p.post, rest);
    var j := i + |lead| + |Print(p.doc)| + |p.post|;
    if |items| == 1 {
      assert rest == [']'] + t;
      ElementsLast(s, i, acc, j, t);
      assert items[1..] == [] && DenoteItems(items) == [Denote(p.doc)];
    } else {
      var more := items[1..];
      Assoc([','], PrintItems(more), [']'] + t);
      ElementsNext(s, i, acc, j, PrintItems(more) + ([']'] + t));
      ItemsThen(more, [']'] + t);
      ElementsParse(s, j + 1, more[0].pre, more, acc + [Denote(p.doc)], t);
      assert acc + [Denote(p.doc)] + DenoteItems(more) == acc + ([Denote(p.doc)] + DenoteItems(more));
    }
  }

  lemma ValueAt(s: string, i: nat, lead: string, m: Member, rest: string, v: nat)
    requires At(s, i, lead + (Keyed(m) + rest)) && Blank(lead) && GoodMember(m) && v == ValueStart(i, lead, m)
    ensures At(s, v, m.value.pre + (Print(m.value.doc) + (m.value.post + rest))) && v <= |s|
  {
    hide ParseKey, Print, Blank, PrintPadded, Keyed, Chars, GoodString, PrintChars;
    MemberKey(s, i, lead, m, rest);
    PaddedThen(m.value, rest);
  }

  /** One member: its key, its value and the separator after it. */
  lemma MemberReads(s: string, i: nat, lead: string, m: Member, rest: string, v: nat)
    requires At(s, i, lead + (Keyed(m) + rest)) && Blank(lead) && GoodMember(m) && Separated(rest)
    requires v == ValueStart(i, lead, m) && v <= |s|
    requires ParseValue(s, v) == Parsed(Denote(m.value.doc), v + |m.value.pre| + |Print(m.value.doc)|, false)
    ensures var n := v + |m.value.pre| + |Print(m.value.doc)| + |m.value.post|;
            && MemberAt(s, i, Chars(m.key), v)
            && SkipSpace(s, ParseValue(s, v).next) == n && At(s, n, rest)
  {
    hide ParseValue, ParseKey, SkipSpace, Print, Denote, Blank, PrintPadded, Keyed, Chars, GoodString, PrintChars;
    MemberKey(s, i, lead, m, rest);
    PaddedThen(m.value, rest);
    PastDocument(s, v, m.value.pre, m.value.doc, m.value.post, rest);
  }

  lemma {:induction false} MembersParse(s: string, i: nat, lead: string, members: seq<Member>, acc: map<string,
                                        Value>, t: string)
    requires members != [] && (forall q :: 0 <= q < |members| ==> GoodMember(members[q])) && Blank(lead)
    requires At(s, i, lead + (Keyed(members[0]) + (AfterMember(members) + (['}'] + t))))
    ensures ParseMembers(s, i, acc, false) == Parsed(Object(DenoteMembers(members, acc)), |s| - |t|, false)
    decreases members, 0
  {
    hide ParseValue, ParseMembers, SkipSpace, Print, Denote, Blank, NumberEnds, PrintMembers, PrintPadded, ParseString,
         Keyed, Chars, GoodString, PrintChars, MemberAt, At, Separated, AfterMember;
    var m, rest := members[0], AfterMember(members) + (['}'] + t);
    var p := m.value;
    assert GoodMember(m);
    AfterMemberShape(members);
    AfterSeparated(AfterMember(members), '}', t);
    SeparatedIsSolid(rest, p.post);
    var v := ValueStart(i, lead, m);
    ValueAt(s, i, lead, m, rest, v);
    DocParses(s, v, p.pre, p.doc, p.post + rest);
    MemberReads(s, i, lead, m, rest, v);
    var n := v + |p.pre| + |Print(p.doc)| + |p.post|;
    AfterMemberIs(members);
    if |members| == 1 {
      assert [] + (['}'] + t) == ['}'] + t;
      MembersLast(s, i, acc, Chars(m.key), v, n, t);
      assert members[1..] == [];
    } else {
      var more := members[1..];
      Assoc([','], PrintMembers(more), ['}'] + t);
      MembersNext(s, i, acc, Chars(m.key), v, n, PrintMembers(more) + (['}'] + t));
      MembersThen(more, ['}'] + t);
      MembersParse(s, n + 1, more[0].lead, more, acc[Chars(m.key) := Denote(p.doc)], t);
    }
  }

  /** Parsing what was printed, with any blanks around it, gives back the value with ok = true. */
  lemma RoundTrip(p: Padded)
    requires GoodPadded(p)
    ensures Parse(PrintPadded(p)) == Some((Denote(p.doc), true))
  {
    hide ParseValue, Print, Denote, Good;
    var s := PrintPadded(p);
    assert s[0..] == s;
    assert NumberEnds(p.post);
    DocParses(s, 0, p.pre, p.doc, p.post);
  }
}
