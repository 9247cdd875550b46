/** The JSON parser of dee.cpp/src/json_min.cpp with its cursor and error flag updated in place. */
module JsonParser {
  import opened Wrappers
  import opened JsonSpec

  /** What has been read, put before what is still to come. */
  function Grown(out: string, rest: (string, nat)): (string, nat) { (out + rest.0, rest.1) }

  /** One round of the string loop: an escape takes two characters, anything else one. */
  lemma BodyStep(s: string, i: nat, out: string)
    requires i < |s| && s[i] != '\"'
    ensures Grown(out, StringBody(s, i)) ==
            if s[i] == '\\' then Grown(out + [Unescape(Peek(s, i + 1))], StringBody(s, i + 2))
            else Grown(out + [s[i]], StringBody(s, i + 1))
  {
    var (c, rest) := if s[i] == '\\' then (Unescape(Peek(s, i + 1)), StringBody(s, i + 2).0)
                     else (s[i], StringBody(s, i + 1).0);
    assert out + ([c] + rest) == (out + [c]) + rest;
  }

  lemma BodyEnd(s: string, i: nat)
    requires i <= |s| + 1 && (i >= |s| || s[i] == '\"')
    ensures StringBody(s, i) == ("", i)
  {
  }

  class Parser {
    const s: string
    var i: nat
    var error: bool

    constructor (text: string)
      ensures s == text && i == 0 && !error
    {
      s, i, error := text, 0, false;
    }

    method SkipWs()
      modifies this`i
      ensures i == SkipSpace(s, old(i))
    {
      while i < |s| && IsSpace(s[i])
        invariant SkipSpace(s, i) == SkipSpace(s, old(i))
        decreases if i < |s| then |s| - i else 0
      {
        i := i + 1;
      }
    }

    method ReadString() returns (out: string)
      requires i < |s|
      modifies this`i
      ensures (out, i) == ParseString(s, old(i))
    {
      hide StringBody;
      i := i + 1;
      out := [];
      assert [] + StringBody(s, i).0 == StringBody(s, i).0;
      while i < |s| && s[i] != '\"'
        invariant i <= |s| + 1
        invariant Grown(out, StringBody(s, i)) == StringBody(s, old(i) + 1)
        decreases if i < |s| then |s| - i else 0
      {
        BodyStep(s, i, out);
        if s[i] == '\\' {
          i := i + 1;
          var e := Peek(s, i);
          i := i + 1;
          out := out + [Unescape(e)];
        } else {
          out := out + [s[i]];
          i := i + 1;
        }
      }
      BodyEnd(s, i);
      assert out + [] == out;
      if i < |s| { i := i + 1; }
    }

    /** A key and its colon; the error flag goes up where one of them is missing. */
    method ReadKey() returns (key: Option<string>)
      requires i <= |s| + 1
      modifies this
      ensures (key, i) == ParseKey(s, old(i)) && error == (old(error) || key.None?)
    {
      hide SkipSpace, ParseString;
      SkipWs();
      if i >= |s| || s[i] != '\"' {
        error := true;
        return None;
      }
      var k := ReadString();
      SkipWs();
      if i >= |s| || s[i] != ':' {
        error := true;
        return None;
      }
      i := i + 1;
      key := Some(k);
    }

    method ReadNumber() returns (v: Option<Value>)
      requires i < |s| && (s[i] == '-' || IsDigit(s[i]))
      modifies this`i
      ensures v.None? <==> ParseNumber(s, old(i)).Thrown?
      ensures v.Some? ==> ParseNumber(s, old(i)) == Parsed(v.value, i, false)
    {
      hide Stoll, HasMantissa;
      var start := i;
      if Peek(s, i) == '-' { i := i + 1; }
      ghost var from := i;
      while i < |s| && IsNumberChar(s[i])
        invariant from <= i <= |s| && NumberEnd(s, i) == NumberEnd(s, from)
      {
        i := i + 1;
      }
      var num := s[start..i];
      if '.' in num || 'e' in num || 'E' in num {
        if !HasMantissa(num) { return None; }
        return Some(Float(num));
      }
      var n := Stoll(num);
      if n.None? { return None; }
      v := Some(Int(n.value));
    }

    method ReadBool() returns (v: Value)
      requires i < |s|
      modifies this
      ensures var r := ParseBool(s, old(i)); v == r.value && i == r.next && error == (old(error) || r.error)
    {
      if Spells(s, i, "true") { i := i + 4; return Bool(true); }
      if Spells(s, i, "false") { i := i + 5; return Bool(false); }
      error := true;
      v := Null;
    }

    /** What a call that returned `v` must have done, given what the specification says of it. */
    ghost predicate Did(v: Option<Value>, r: Parsed, before: bool)
      reads this
    {
      && (v.None? <==> r.Thrown?)
      && (v.Some? ==> v.value == r.value && i == r.next && error == (before || r.error))
    }

    method ReadValue() returns (v: Option<Value>)
      requires i <= |s| + 1
      modifies this
      ensures Did(v, ParseValue(s, old(i)), old(error))
      decreases Left(s, i), 2
    {
      hide SkipSpace, ParseString, ParseNumber, ParseBool, ParseElements, ParseMembers;
      SkipWs();
      var c := Peek(s, i);
      if i >= |s| {
        error := true;
        v := Some(Null);
      } else if c == '{' {
        v := ReadObject();
      } else if c == '[' {
        v := ReadArray();
      } else if c == '\"' {
        var t := ReadString();
        v := Some(Str(t));
      } else if c == 't' || c == 'f' {
        var b := ReadBool();
        v := Some(b);
      } else if c == '-' || IsDigit(c) {
        v := ReadNumber();
      } else {
        error := true;
        v := Some(Null);
      }
    }

    /** From an opening bracket on. */
    method ReadArray() returns (v: Option<Value>)
      requires i < |s| && s[i] == '['
      modifies this
      ensures var k := SkipSpace(s, old(i) + 1);
              Did(v, if k < |s| && s[k] == ']' then Parsed(Array([]), k + 1, false) else ParseElements(s, k, [], false),
                  old(error))
      decreases Left(s, i), 1
    {
      hide SkipSpace, ParseValue;
      ghost var start := i;
      i := i + 1;
      SkipWs();
      if i < |s| && s[i] == ']' {
        i := i + 1;
        return Some(Array([]));
      }
      ghost var spec := ParseElements(s, i, [], false);
      ghost var raised := false;
      var arr := [];
      while true
        invariant start < i <= |s| + 1 && error == (old(error) || raised)
        invariant ParseElements(s, i, arr, raised) == spec
        decreases Left(s, i)
      {
        ghost var at, flag := i, error;
        var e := ReadValue();
        if e.None? { return None; }
        raised := raised || ParseValue(s, at).error;
        arr := arr + [e.value];
        SkipWs();
        var c := Peek(s, i);
        if i < |s| && c == ',' {
          i := i + 1;
        } else if i < |s| && c == ']' {
          i := i + 1;
          return Some(Array(arr));
        } else {
          error := true;
          return Some(Array(arr));
        }
      }
    }

    /** From an opening brace on. */
    method ReadObject() returns (v: Option<Value>)
      requires i < |s| && s[i] == '{'
      modifies this
      ensures var k := SkipSpace(s, old(i) + 1);
              Did(v, if k < |s| && s[k] == '}' then Parsed(Object(map[]), k + 1, false)
                     else ParseMembers(s, k, map[], false),
                  old(error))
      decreases Left(s, i), 1
    {
      hide SkipSpace, ParseValue, ParseKey;
      ghost var start := i;
      i := i + 1;
      SkipWs();
      if i < |s| && s[i] == '}' {
        i := i + 1;
        return Some(Object(map[]));
      }
      ghost var spec := ParseMembers(s, i, map[], false);
      ghost var raised := false;
      var obj := map[];
      while true
        invariant start < i <= |s| + 1 && error == (old(error) || raised)
        invariant ParseMembers(s, i, obj, raised) == spec
        decreases Left(s, i)
      {
        var key := ReadKey();
        if key.None? { return Some(Object(obj)); }
        ghost var at := i;
        var e := ReadValue();
        if e.None? { return None; }
        raised := raised || ParseValue(s, at).error;
        obj := obj[key.value := e.value];
        SkipWs();
        var c := Peek(s, i);
        if i < |s| && c == ',' {
          i := i + 1;
        } else if i < |s| && c == '}' {
          i := i + 1;
          return Some(Object(obj));
        } else {
          error := true;
          return Some(Object(obj));
        }
      }
    }
  }

  /** parse: the value and the ok flag; absent when a number conversion throws. */
  method ParseText(text: string) returns (r: Option<(Value, bool)>)
    ensures r == Parse(text)
  {
    var p := new Parser(text);
    var v := p.ReadValue();
    r := if v.None? then None else Some((v.value, !p.error));
  }
}
