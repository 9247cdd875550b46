/** What a failed parse returns (dee.cpp/src/json_min.cpp, dee.cpp/include/dee/json_min.h). */
module JsonErrors {
  import opened Wrappers
  import opened JsonSpec

  /** The array loop returns the array read so far, whatever goes wrong in it. */
  lemma {:induction false} ElementsYieldArray(s: string, i: nat, acc: seq<Value>, error: bool)
    requires i <= |s| + 1 && ParseElements(s, i, acc, error).Parsed?
    ensures ParseElements(s, i, acc, error).value.Array?
    ensures acc <= ParseElements(s, i, acc, error).value.arr
    decreases |s| + 1 - i
  {
    hide ParseValue;
    var e := ParseValue(s, i);
    var j := SkipSpace(s, e.next);
    if j < |s| && s[j] == ',' { ElementsYieldArray(s, j + 1, acc + [e.value], error || e.error); }
  }

  /** The object loop returns the object read so far. */
  lemma {:induction false} MembersYieldObject(s: string, i: nat, acc: map<string, Value>, error: bool)
    requires i <= |s| + 1 && ParseMembers(s, i, acc, error).Parsed?
    ensures ParseMembers(s, i, acc, error).value.Object?
    ensures acc.Keys <= ParseMembers(s, i, acc, error).value.obj.Keys
    decreases |s| + 1 - i
  {
    hide ParseValue, ParseKey;
    var (key, n) := ParseKey(s, i);
    if key.Some? {
      var v := ParseValue(s, n);
      var m := SkipSpace(s, v.next);
      if m < |s| && s[m] == ',' { MembersYieldObject(s, m + 1, acc[key.value := v.value], error || v.error); }
    }
  }

  /**
   A failed parse returns Null, as the header promises, exactly if the text does not open
   with a brace or a bracket; otherwise it returns the part of the object or array it read.
   */
  lemma FailedParseIff(s: string)
    requires Parse(s).Some? && !Parse(s).value.1
    ensures Parse(s).value.0.Null? <==> Peek(s, SkipSpace(s, 0)) != '{' && Peek(s, SkipSpace(s, 0)) != '['
  {
    var j := SkipSpace(s, 0);
    if j < |s| && s[j] == '{' {
      var k := SkipSpace(s, j + 1);
      hide ParseMembers;
      if !(k < |s| && s[k] == '}') { MembersYieldObject(s, k, map[], false); }
    } else if j < |s| && s[j] == '[' {
      var k := SkipSpace(s, j + 1);
      hide ParseElements;
      if !(k < |s| && s[k] == ']') { ElementsYieldArray(s, k, [], false); }
    }
  }

  lemma OpenArray(s: string)
    requires |s| > 0 && s[0] == '[' && SkipSpace(s, 0) == 0 && SkipSpace(s, 1) == 1 && (|s| == 1 || s[1] != ']')
    ensures ParseValue(s, 0) == ParseElements(s, 1, [], false)
  {
    hide ParseElements;
  }

  /** The text `[true` fails with the one-element array it read, not with Null. */
  lemma FailedParseKeepsPart()
    ensures Parse("[true") == Some((Array([Bool(true)]), false))
  {
    var s := "[true";
    assert SkipSpace(s, 0) == 0 && SkipSpace(s, 1) == 1 && SkipSpace(s, 5) == 5;
    assert s[1..5] == "true";
    OpenArray(s);
    assert ParseValue(s, 1) == Parsed(Bool(true), 5, false);
    assert [] + [Bool(true)] == [Bool(true)];
    assert ParseElements(s, 1, [], false) == Parsed(Array([Bool(true)]), 5, true);
  }
}
