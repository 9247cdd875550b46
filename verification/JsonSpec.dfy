/**
 The recursive-descent JSON reader of dee.cpp/src/json_min.cpp on values: each function takes
 the text and the cursor and returns what was read, the new cursor, and whether the
 error flag was raised. A number that std::stoll or std::stod rejects throws, and so does the parse.
 */
module JsonSpec {
  import opened Wrappers

  /** A float keeps its spelling: the value std::stod gives it is not modelled. */
  datatype Value =
    | Null
    | Bool(b: bool)
    | Int(i: int)
    | Float(spelling: string)
    | Str(s: string)
    | Array(arr: seq<Value>)
    | Object(obj: map<string, Value>)

  datatype Parsed = Thrown | Parsed(value: Value, next: nat, error: bool)

  // ---- characters ------------------------------------------------------------

  /** std::isspace in the C locale. */
  predicate IsSpace(c: char) { c == ' ' || 9 as char <= c <= 13 as char }

  predicate IsDigit(c: char) { '0' <= c <= '9' }

  predicate IsNumberChar(c: char) {
    IsDigit(c) || c == '.' || c == 'e' || c == 'E' || c == '+' || c == '-'
  }

  function Peek(s: string, i: nat): char { if i < |s| then s[i] else '\0' }

  function SkipSpace(s: string, i: nat): (j: nat)
    ensures i <= j && (i <= |s| ==> j <= |s|) && (i > |s| ==> j == i)
    decreases if i < |s| then |s| - i else 0
  {
    if i < |s| && IsSpace(s[i]) then SkipSpace(s, i + 1) else i
  }

  // ---- scalars ---------------------------------------------------------------

  /** The character an escape stands for; an unknown one stands for itself. */
  function Unescape(e: char): char {
    if e == 'n' then '\n' else if e == 't' then '\t' else if e == 'r' then '\r' else e
  }

  /** The characters up to the closing quote, and where they end. An escape may read one past the end. */
  function StringBody(s: string, i: nat): (r: (string, nat))
    requires i <= |s| + 1
    ensures i <= r.1 <= |s| + 1
    decreases if i < |s| then |s| - i else 0
  {
    if i < |s| && s[i] != '\"' then
      if s[i] == '\\' then
        var rest := StringBody(s, i + 2);
        ([Unescape(Peek(s, i + 1))] + rest.0, rest.1)
      else
        var rest := StringBody(s, i + 1);
        ([s[i]] + rest.0, rest.1)
    else ("", i)
  }

  /** parse_string, with the cursor on the opening quote. */
  function ParseString(s: string, i: nat): (r: (string, nat))
    requires i < |s|
    ensures i < r.1 <= |s| + 1
  {
    var body := StringBody(s, i + 1);
    (body.0, if body.1 < |s| then body.1 + 1 else body.1)
  }

  function NumberEnd(s: string, i: nat): (j: nat)
    requires i <= |s|
    ensures i <= j <= |s|
    decreases |s| - i
  {
    if i < |s| && IsNumberChar(s[i]) then NumberEnd(s, i + 1) else i
  }

  function LeadingDigits(t: string): (r: string) {
    if t != [] && IsDigit(t[0]) then [t[0]] + LeadingDigits(t[1..]) else []
  }

  function DigitsValue(t: string): int {
    if t == [] then 0 else DigitsValue(t[..|t| - 1]) * 10 + (t[|t| - 1] as int - '0' as int)
  }

  const INT64_MIN: int := -0x8000_0000_0000_0000
  const INT64_MAX: int := 0x7fff_ffff_ffff_ffff

  /** std::stoll: sign, then as many digits as there are; absent where it throws. */
  function Stoll(t: string): Option<int> {
    var signed := t != [] && (t[0] == '-' || t[0] == '+');
    var digits := LeadingDigits(if signed then t[1..] else t);
    var v := if signed && t[0] == '-' then -DigitsValue(digits) else DigitsValue(digits);
    if digits == [] || v < INT64_MIN || v > INT64_MAX then None else Some(v)
  }

  /** std::stod finds a number to convert: a digit, or a point and a digit, after the sign. It throws otherwise. */
  predicate HasMantissa(t: string) {
    var u := if t != [] && (t[0] == '-' || t[0] == '+') then t[1..] else t;
    u != [] && (IsDigit(u[0]) || (u[0] == '.' && |u| > 1 && IsDigit(u[1])))
  }

  function ParseNumber(s: string, i: nat): (r: Parsed)
    requires i < |s| && (s[i] == '-' || IsDigit(s[i]))
    ensures r.Parsed? ==> i < r.next <= |s|
  {
    var end := NumberEnd(s, if s[i] == '-' then i + 1 else i);
    var t := s[i..end];
    assert s[i] != '-' ==> end > i;
    if '.' in t || 'e' in t || 'E' in t then if HasMantissa(t) then Parsed(Float(t), end, false) else Thrown
    else
      var v := Stoll(t);
      if v.None? then Thrown else Parsed(Int(v.value), end, false)
  }

  predicate Spells(s: string, i: nat, word: string) { i + |word| <= |s| && s[i..i + |word|] == word }

  function ParseBool(s: string, i: nat): (r: Parsed)
    requires i < |s|
    ensures r.Parsed? && i <= r.next <= |s|
  {
    if Spells(s, i, "true") then Parsed(Bool(true), i + 4, false)
    else if Spells(s, i, "false") then Parsed(Bool(false), i + 5, false)
    else Parsed(Null, i, true)
  }

  // ---- values ----------------------------------------------------------------

  /** What is left of the text, for termination. */
  ghost function Left(s: string, i: nat): nat { if i <= |s| then |s| - i + 1 else 0 }

  function ParseValue(s: string, i: nat): (r: Parsed)
    requires i <= |s| + 1
    ensures r.Parsed? ==> i <= r.next <= |s| + 1
    decreases Left(s, i), 0
  {
    var j := SkipSpace(s, i);
    var c := Peek(s, j);
    if j < |s| && c == '{' then
      var k := SkipSpace(s, j + 1);
      if Peek(s, k) == '}' && k < |s| then Parsed(Object(map[]), k + 1, false) else ParseMembers(s, k, map[], false)
    else if j < |s| && c == '[' then
      var k := SkipSpace(s, j + 1);
      if Peek(s, k) == ']' && k < |s| then Parsed(Array([]), k + 1, false) else ParseElements(s, k, [], false)
    else if j < |s| && c == '\"' then
      var (t, next) := ParseString(s, j);
      Parsed(Str(t), next, false)
    else if j < |s| && (c == 't' || c == 'f') then ParseBool(s, j)
    else if j < |s| && (c == '-' || IsDigit(c)) then ParseNumber(s, j)
    else Parsed(Null, j, true)
  }

  /** The loop of parse_array from one element on. */
  function ParseElements(s: string, i: nat, acc: seq<Value>, error: bool): (r: Parsed)
    requires i <= |s| + 1
    ensures r.Parsed? ==> i <= r.next <= |s| + 1
    decreases Left(s, i), 1
  {
    var e := ParseValue(s, i);
    if e.Thrown? then Thrown
    else
      var j := SkipSpace(s, e.next);
      var c := Peek(s, j);
      if j < |s| && c == ',' then ParseElements(s, j + 1, acc + [e.value], error || e.error)
      else if j < |s| && c == ']' then Parsed(Array(acc + [e.value]), j + 1, error || e.error)
      else Parsed(Array(acc + [e.value]), j, true)
  }

  /** A key and its colon, and the cursor after them; absent where one of them is missing. */
  function ParseKey(s: string, i: nat): (r: (Option<string>, nat))
    requires i <= |s| + 1
    ensures i <= r.1 <= |s| + 1 && (r.0.Some? ==> i < r.1 <= |s|)
  {
    var j := SkipSpace(s, i);
    if j >= |s| || s[j] != '\"' then (None, j)
    else
      var (key, k) := ParseString(s, j);
      var c := SkipSpace(s, k);
      if c >= |s| || s[c] != ':' then (None, c) else (Some(key), c + 1)
  }

  /** The loop of parse_object from one member on; a repeated key keeps its last value. */
  function ParseMembers(s: string, i: nat, acc: map<string, Value>, error: bool): (r: Parsed)
    requires i <= |s| + 1
    ensures r.Parsed? ==> i <= r.next <= |s| + 1
    decreases Left(s, i), 1
  {
    var (key, n) := ParseKey(s, i);
    if key.None? then Parsed(Object(acc), n, true)
    else
      var v := ParseValue(s, n);
      if v.Thrown? then Thrown
      else
        var m := SkipSpace(s, v.next);
        var c := Peek(s, m);
        if m < |s| && c == ',' then ParseMembers(s, m + 1, acc[key.value := v.value], error || v.error)
        else if m < |s| && c == '}' then Parsed(Object(acc[key.value := v.value]), m + 1, error || v.error)
        else Parsed(Object(acc[key.value := v.value]), m, true)
  }

  /** parse: the value and whether no error was raised; text after the value is ignored. */
  function Parse(s: string): Option<(Value, bool)> {
    var r := ParseValue(s, 0);
    if r.Thrown? then None else Some((r.value, !r.error))
  }
}
