/**
 Exactly which texts the reader accepts (dee.cpp/src/json_min.cpp): those that begin, after
 white space, with a document of the grammar, and those that begin with a string nobody closes.
 */
module JsonAccepts {
  import opened Wrappers
  import opened JsonSpec
  import opened JsonRoundTrip

  // ---- pieces of the text ---------------------------------------------------------

  lemma {:induction false} SkippedBlank(s: string, i: nat)
    requires i <= |s|
    ensures SkipSpace(s, i) <= |s| && Blank(s[i..SkipSpace(s, i)])
    decreases |s| - i
  {
    if i < |s| && IsSpace(s[i]) {
      SkippedBlank(s, i + 1);
      var j := SkipSpace(s, i + 1);
      assert s[i..j] == [s[i]] + s[i + 1..j];
    }
  }

  lemma Splits(s: string, i: nat, j: nat, k: nat)
    requires i <= j <= k <= |s|
    ensures s[i..k] == s[i..j] + s[j..k]
  {
  }

  /** How a character after a backslash was meant. */
  function Meant(e: char): Spelling {
    if e == 'n' then Escaped('\n') else if e == 't' then Escaped('\t') else if e == 'r' then Escaped('\r')
    else if e == '\n' || e == '\t' || e == '\r' then Odd(e)
    else Escaped(e)
  }

  lemma MeantIs(e: char)
    ensures GoodSpelling(Meant(e)) && PrintSpelling(Meant(e)) == ['\\', e] && Meant(e).c == Unescape(e)
  {
  }

  /** What the reader takes from a closed string is spelled out between the quotes. */
  lemma {:induction false} BodySpelled(s: string, i: nat) returns (cs: seq<Spelling>)
    requires i <= |s| + 1 && StringBody(s, i).1 < |s|
    ensures GoodString(cs) && Chars(cs) == StringBody(s, i).0
    ensures i <= StringBody(s, i).1 && s[i..StringBody(s, i).1] == PrintChars(cs) && s[StringBody(s, i).1] == '\"'
    decreases if i < |s| then |s| - i else 0
  {
    hide GoodSpelling, PrintSpelling, Unescape;
    cs := [];
    if i < |s| && s[i] != '\"' {
      var n := StringBody(s, i).1;
      var x, k := Raw(s[i]), i + 1;
      if s[i] == '\\' {
        BodyInside(s, i + 2);
        x, k := Meant(s[i + 1]), i + 2;
        MeantIs(s[i + 1]);
        assert s[i..k] == ['\\', s[i + 1]];
      } else {
        RawIs(s[i]);
        assert s[i..k] == [s[i]];
      }
      var rest := BodySpelled(s, k);
      cs := [x] + rest;
      assert cs[1..] == rest;
      Splits(s, i, k, n);
    }
  }

  lemma RawIs(c: char)
    requires c != '\"' && c != '\\'
    ensures GoodSpelling(Raw(c)) && PrintSpelling(Raw(c)) == [c]
  {
  }

  lemma BodyInside(s: string, i: nat)
    requires i <= |s| + 1 && StringBody(s, i).1 < |s|
    ensures i < |s|
  {
  }

  /** At `j` a string begins that no quote closes. */
  predicate Unclosed(s: string, j: nat) { j < |s| && s[j] == '\"' && StringBody(s, j + 1).1 >= |s| }

  lemma StringSpelled(s: string, j: nat) returns (cs: seq<Spelling>)
    requires j < |s| && s[j] == '\"' && !Unclosed(s, j)
    ensures GoodString(cs) && Chars(cs) == ParseString(s, j).0 && ParseString(s, j).1 <= |s|
    ensures s[j..ParseString(s, j).1] == ['\"'] + PrintChars(cs) + ['\"']
  {
    hide StringBody, PrintChars, Chars;
    cs := BodySpelled(s, j + 1);
    var n := StringBody(s, j + 1).1;
    assert s[j..n + 1] == [s[j]] + s[j + 1..n] + [s[n]];
  }

  /** An unclosed string takes the rest of the text. */
  lemma UnclosedEnds(s: string, j: nat)
    requires Unclosed(s, j)
    ensures ParseString(s, j).1 >= |s|
  {
  }

  lemma {:induction false} NumberSpelled(s: string, i: nat)
    requires i <= |s|
    ensures var j := NumberEnd(s, i); NumberChars(s[i..j]) && NumberEnds(s[j..])
    decreases |s| - i
  {
    if i < |s| && IsNumberChar(s[i]) {
      NumberSpelled(s, i + 1);
      var j := NumberEnd(s, i + 1);
      assert s[i..j] == [s[i]] + s[i + 1..j];
    }
  }

  lemma TokenSpelled(s: string, j: nat)
    requires j < |s| && (s[j] == '-' || IsDigit(s[j])) && ParseNumber(s, j).Parsed?
    ensures var r := ParseNumber(s, j); var t := s[j..r.next];
            && !r.error && Token(t) && Converted(t) == Some(r.value) && NumberEnds(s[r.next..])
  {
    hide NumberEnd, Stoll, HasMantissa, NumberEnds;
    var k := if s[j] == '-' then j + 1 else j;
    NumberSpelled(s, k);
    var t := s[j..NumberEnd(s, k)];
    assert forall i :: 1 <= i < |t| ==> t[i] == s[k..NumberEnd(s, k)][i - (k - j)];
  }

  // ---- the whole text -------------------------------------------------------------

  /** From `i` to `n` the text is white space and a document that denotes `v`. */
  ghost predicate Reads(s: string, i: nat, n: nat, pre: string, d: Doc, v: Value) {
    && i <= n <= |s| && Blank(pre) && Good(d) && s[i..n] == pre + Print(d) && v == Denote(d)
    && EndsBefore(d, s[n..])
  }

  lemma ScalarSpelled(s: string, i: nat) returns (d: Doc)
    requires i <= |s| && ParseValue(s, i).Parsed? && !ParseValue(s, i).error
    requires var j := SkipSpace(s, i); j < |s| && s[j] != '[' && s[j] != '{' && !Unclosed(s, j)
    ensures Reads(s, i, ParseValue(s, i).next, s[i..SkipSpace(s, i)], d, ParseValue(s, i).value)
  {
    hide SkipSpace, ParseElements, ParseMembers, Unclosed, Chars, PrintChars, Token, Converted, NumberEnds, Spells,
         GoodString, ParseString, ParseNumber, Blank;
    SkippedBlank(s, i);
    var j := SkipSpace(s, i);
    var n := ParseValue(s, i).next;
    Dispatch(s, i, j);
    if s[j] == '\"' {
      var cs := StringSpelled(s, j);
      d := DStr(cs);
    } else if s[j] == '-' || IsDigit(s[j]) {
      TokenSpelled(s, j);
      d := DNumber(s[j..n]);
    } else {
      d := WordSpelled(s, j);
    }
    Splits(s, i, j, n);
  }

  lemma WordSpelled(s: string, j: nat) returns (d: Doc)
    requires j < |s| && ParseBool(s, j).Parsed? && !ParseBool(s, j).error
    ensures var r := ParseBool(s, j);
            d.DBool? && j <= r.next <= |s| && s[j..r.next] == Print(d) && r.value == Denote(d)
  {
    d := DBool(Spells(s, j, "true"));
  }

  /** An item with the white space that follows it. */
  lemma ItemSpelled(s: string, i: nat, n: nat, pre: string, d: Doc, v: Value, j: nat) returns (p: Padded)
    requires Reads(s, i, n, pre, d, v) && j == SkipSpace(s, n)
    ensures j <= |s| && i <= j && GoodPadded(p) && p.doc == d && s[i..j] == PrintPadded(p)
  {
    hide SkipSpace, Print, Denote, EndsBefore;
    SkippedBlank(s, n);
    p := Padded(pre, d, s[n..j]);
    Splits(s, i, n, j);
    assert pre + Print(d) + s[n..j] == pre + (Print(d) + s[n..j]);
    hide Good;
  }

  /** A successful value was spelled out, unless it is a string that nobody closes. */
  lemma {:induction false} ValueSpelled(s: string, i: nat) returns (d: Doc)
    requires i <= |s| && ParseValue(s, i).Parsed? && !ParseValue(s, i).error
    requires !Unclosed(s, SkipSpace(s, i))
    ensures Reads(s, i, ParseValue(s, i).next, s[i..SkipSpace(s, i)], d, ParseValue(s, i).value)
    decreases |s| - i, 0
  {
    hide SkipSpace, Print, Denote, Good, Reads, ParseElements, ParseMembers, Unclosed;
    var j := SkipSpace(s, i);
    NotAtEnd(s, i);
    Dispatch(s, i, j);
    if s[j] == '[' {
      var k := SkipSpace(s, j + 1);
      SkippedBlank(s, j + 1);
      if k < |s| && s[k] == ']' {
        d := DArray(s[j + 1..k], []);
        EmptyArrayReads(s, i, j, k);
      } else {
        var items := ElementsSpelled(s, k, [], false);
        d := DArray([], Widen(items, s[j + 1..k]));
        ArrayReads(s, i, j, k, items, ParseValue(s, i).next, ParseValue(s, i).value);
      }
    } else if s[j] == '{' {
      var k := SkipSpace(s, j + 1);
      SkippedBlank(s, j + 1);
      if k < |s| && s[k] == '}' {
        d := DObject(s[j + 1..k], []);
        EmptyObjectReads(s, i, j, k);
      } else {
        var members := MembersSpelled(s, k, map[], false);
        d := DObject([], WidenKey(members, s[j + 1..k]));
        ObjectReads(s, i, j, k, members, ParseValue(s, i).next, ParseValue(s, i).value);
      }
    } else {
      d := ScalarSpelled(s, i);
    }
  }

  lemma NotAtEnd(s: string, i: nat)
    requires i <= |s| && ParseValue(s, i).Parsed? && !ParseValue(s, i).error
    ensures i <= SkipSpace(s, i) < |s|
  {
    hide ParseElements, ParseMembers;
  }

  /** The items after white space that was skipped before them. */
  function Widen(items: seq<Padded>, ws: string): seq<Padded>
    requires items != []
  {
    [items[0].(pre := ws + items[0].pre)] + items[1..]
  }

  function WidenKey(members: seq<Member>, ws: string): seq<Member>
    requires members != []
  {
    [members[0].(lead := ws + members[0].lead)] + members[1..]
  }

  ghost predicate GoodItems(items: seq<Padded>) { forall q :: 0 <= q < |items| ==> GoodPadded(items[q]) }

  ghost predicate GoodMembers(members: seq<Member>) { forall q :: 0 <= q < |members| ==> GoodMember(members[q]) }

  lemma EmptyArrayReads(s: string, i: nat, j: nat, k: nat)
    requires i <= j < k < |s| && j == SkipSpace(s, i) && k == SkipSpace(s, j + 1) && s[j] == '[' && s[k] == ']'
    ensures Reads(s, i, k + 1, s[i..j], DArray(s[j + 1..k], []), Array([]))
  {
    hide SkipSpace;
    SkippedBlank(s, i);
    SkippedBlank(s, j + 1);
    NoItems();
    assert s[i..k + 1] == s[i..j] + ([s[j]] + s[j + 1..k] + [s[k]]);
    assert Print(DArray(s[j + 1..k], [])) == ['['] + s[j + 1..k] + [']'];
  }

  lemma EmptyObjectReads(s: string, i: nat, j: nat, k: nat)
    requires i <= j < k < |s| && j == SkipSpace(s, i) && k == SkipSpace(s, j + 1) && s[j] == '{' && s[k] == '}'
    ensures Reads(s, i, k + 1, s[i..j], DObject(s[j + 1..k], []), Object(map[]))
  {
    hide SkipSpace;
    SkippedBlank(s, i);
    SkippedBlank(s, j + 1);
    NoItems();
    assert s[i..k + 1] == s[i..j] + ([s[j]] + s[j + 1..k] + [s[k]]);
    assert Print(DObject(s[j + 1..k], [])) == ['{'] + s[j + 1..k] + ['}'];
  }

  lemma WidenedItem(p: Padded, ws: string)
    ensures PrintPadded(p.(pre := ws + p.pre)) == ws + PrintPadded(p)
  {
    hide Print;
    assert ws + p.pre + (Print(p.doc) + p.post) == ws + (p.pre + (Print(p.doc) + p.post));
  }

  lemma WidenedItemsGood(items: seq<Padded>, ws: string)
    requires items != [] && Blank(ws) && GoodItems(items)
    ensures GoodItems(Widen(items, ws))
  {
    hide Blank, Good;
    var w, p := Widen(items, ws), items[0];
    assert GoodPadded(p);
    BlankParts(ws, p.pre);
    forall q | 0 <= q < |w| ensures GoodPadded(w[q]) {
      if q > 0 { assert w[q] == items[q]; }
    }
  }

  lemma WidenPrints(items: seq<Padded>, ws: string)
    requires items != []
    ensures PrintItems(Widen(items, ws)) == ws + PrintItems(items)
    ensures DenoteItems(Widen(items, ws)) == DenoteItems(items)
    ensures Blank(ws) && GoodItems(items) ==> GoodItems(Widen(items, ws))
  {
    hide PrintPadded, Denote, GoodItems, Blank;
    var w, p := Widen(items, ws), items[0];
    assert w[1..] == items[1..];
    WidenedItem(p, ws);
    if Blank(ws) && GoodItems(items) { WidenedItemsGood(items, ws); }
  }

  lemma BlankParts(a: string, b: string)
    requires Blank(a) && Blank(b)
    ensures Blank(a + b)
  {
    forall i | 0 <= i < |a + b| ensures IsSpace((a + b)[i]) {
      assert if i < |a| then (a + b)[i] == a[i] else (a + b)[i] == b[i - |a|];
    }
  }

  lemma ArrayReads(s: string, i: nat, j: nat, k: nat, items: seq<Padded>, n: nat, v: Value)
    requires i <= j < k <= n <= |s| && j == SkipSpace(s, i) && k == SkipSpace(s, j + 1) && s[j] == '['
    requires items != [] && GoodItems(items) && s[k..n] == PrintItems(items) + [']']
    requires v == Array(DenoteItems(items))
    ensures Reads(s, i, n, s[i..j], DArray([], Widen(items, s[j + 1..k])), v)
  {
    hide SkipSpace, PrintItems, DenoteItems, GoodPadded;
    SkippedBlank(s, i);
    SkippedBlank(s, j + 1);
    WidenPrints(items, s[j + 1..k]);
    var inside := s[j + 1..k] + PrintItems(items);
    assert s[i..n] == s[i..j] + ([s[j]] + s[j + 1..k] + s[k..n]);
    assert [s[j]] + s[j + 1..k] + (PrintItems(items) + [']']) == ['['] + inside + [']'];
  }

  /** The item at `i` and, after it, the bracket or the comma it is followed by. */
  lemma {:induction false} ElementsSpelled(s: string, i: nat, acc: seq<Value>, error: bool) returns (items: seq<Padded>)
    requires i <= |s| && ParseElements(s, i, acc, error).Parsed? && !ParseElements(s, i, acc, error).error
    ensures items != [] && GoodItems(items) && !error
    ensures var r := ParseElements(s, i, acc, error);
            && i <= r.next <= |s| && s[i..r.next] == PrintItems(items) + [']']
            && r.value == Array(acc + DenoteItems(items))
    decreases |s| - i, 1
  {
    hide SkipSpace, Print, Denote, Good, ParseValue, ParseElements, PrintPadded, PrintItems, DenoteItems, Unclosed,
         Reads, GoodPadded, GoodItems;
    ElementClosed(s, i, acc, error);
    var e := ParseValue(s, i);
    var j := SkipSpace(s, e.next);
    var d := ValueSpelled(s, i);
    var p := ItemSpelled(s, i, e.next, s[i..SkipSpace(s, i)], d, e.value, j);
    ReadsValue(s, i, e.next, s[i..SkipSpace(s, i)], d, e.value);
    if s[j] == ',' {
      var rest := ElementsSpelled(s, j + 1, acc + [e.value], error || e.error);
      items := [p] + rest;
      ItemsMore(s, i, j, ParseElements(s, i, acc, error).next, p, rest);
      assert acc + [e.value] + DenoteItems(rest) == acc + ([e.value] + DenoteItems(rest));
    } else {
      items := [p];
      ItemsEnd(s, i, j, p);
    }
  }

  lemma ItemsMore(s: string, i: nat, j: nat, n: nat, p: Padded, rest: seq<Padded>)
    requires i <= j < n <= |s| && s[i..j] == PrintPadded(p) && s[j] == ',' && rest != []
    requires s[j + 1..n] == PrintItems(rest) + [']'] && GoodPadded(p) && GoodItems(rest)
    ensures var items := [p] + rest;
            && s[i..n] == PrintItems(items) + [']'] && GoodItems(items)
            && DenoteItems(items) == [Denote(p.doc)] + DenoteItems(rest)
  {
    hide Print, Denote, GoodPadded, PrintPadded;
    var items := [p] + rest;
    assert items[1..] == rest;
    assert s[i..n] == s[i..j] + ([s[j]] + s[j + 1..n]);
    assert PrintPadded(p) + ([','] + (PrintItems(rest) + [']'])) ==
           (PrintPadded(p) + ([','] + PrintItems(rest))) + [']'];
    forall q | 0 <= q < |items| ensures GoodPadded(items[q]) {
      if q > 0 { assert items[q] == rest[q - 1]; }
    }
  }

  lemma ItemsEnd(s: string, i: nat, j: nat, p: Padded)
    requires i <= j < |s| && s[i..j] == PrintPadded(p) && s[j] == ']' && GoodPadded(p)
    ensures s[i..j + 1] == PrintItems([p]) + [']'] && GoodItems([p]) && DenoteItems([p]) == [Denote(p.doc)]
  {
    hide Print, Denote, GoodPadded, PrintPadded;
    assert s[i..j + 1] == s[i..j] + [s[j]];
    assert PrintPadded(p) + [] == PrintPadded(p);
    assert [p][1..] == [];
    NoItems();
  }

  lemma ReadsValue(s: string, i: nat, n: nat, pre: string, d: Doc, v: Value)
    requires Reads(s, i, n, pre, d, v)
    ensures v == Denote(d)
  {
    hide Denote;
  }

  /** A successful round read its item without error and found a comma or the bracket. */
  lemma ElementClosed(s: string, i: nat, acc: seq<Value>, error: bool)
    requires i <= |s| && ParseElements(s, i, acc, error).Parsed? && !ParseElements(s, i, acc, error).error
    ensures var e := ParseValue(s, i);
            && e.Parsed? && !e.error && !Unclosed(s, SkipSpace(s, i)) && !error
            && var j := SkipSpace(s, e.next);
               && i < e.next <= |s| && j < |s| && (s[j] == ',' || s[j] == ']')
               && (s[j] == ',' ==>
                   ParseElements(s, i, acc, error) == ParseElements(s, j + 1, acc + [e.value], error || e.error))
               && (s[j] == ']' ==> ParseElements(s, i, acc, error) == Parsed(Array(acc + [e.value]), j + 1, false))
  {
    hide ParseValue;
    ElementsKeepError(s, i, acc, error);
    var e := ParseValue(s, i);
    ValueAdvances(s, i);
    if Unclosed(s, SkipSpace(s, i)) { UnclosedValue(s, i); }
  }

  /** The error flag never goes down. */
  lemma {:induction false} ElementsKeepError(s: string, i: nat, acc: seq<Value>, error: bool)
    requires i <= |s| + 1 && ParseElements(s, i, acc, error).Parsed?
    ensures ParseValue(s, i).Parsed?
    ensures error || ParseValue(s, i).error ==> ParseElements(s, i, acc, error).error
    decreases |s| + 1 - i
  {
    hide ParseValue;
    var e := ParseValue(s, i);
    var j := SkipSpace(s, e.next);
    if j < |s| && s[j] == ',' { ElementsKeepError(s, j + 1, acc + [e.value], error || e.error); }
  }

  lemma ValueAdvances(s: string, i: nat)
    requires i <= |s| && ParseValue(s, i).Parsed? && !ParseValue(s, i).error
    ensures i < ParseValue(s, i).next
  {
    hide ParseElements, ParseMembers;
  }

  lemma UnclosedValue(s: string, i: nat)
    requires i <= |s| && Unclosed(s, SkipSpace(s, i)) && ParseValue(s, i).Parsed?
    ensures ParseValue(s, i).next >= |s|
  {
    hide SkipSpace, ParseElements, ParseMembers, StringBody;
    UnclosedEnds(s, SkipSpace(s, i));
    Dispatch(s, i, SkipSpace(s, i));
  }

  // ---- members ------------------------------------------------------------------

  lemma WidenedKey(m: Member, ws: string)
    ensures PrintMember(m.(lead := ws + m.lead)) == ws + PrintMember(m)
  {
    hide PrintPadded, PrintChars;
    assert ws + m.lead + Keyed(m) == ws + (m.lead + Keyed(m));
  }

  lemma WidenedGood(members: seq<Member>, ws: string)
    requires members != [] && Blank(ws) && GoodMembers(members)
    ensures GoodMembers(WidenKey(members, ws))
  {
    hide Blank, GoodPadded, GoodString;
    var w, m := WidenKey(members, ws), members[0];
    assert GoodMember(m);
    BlankParts(ws, m.lead);
    forall q | 0 <= q < |w| ensures GoodMember(w[q]) {
      if q > 0 { assert w[q] == members[q]; }
    }
  }

  lemma WidenKeyPrints(members: seq<Member>, ws: string, acc: map<string, Value>)
    requires members != []
    ensures PrintMembers(WidenKey(members, ws)) == ws + PrintMembers(members)
    ensures DenoteMembers(WidenKey(members, ws), acc) == DenoteMembers(members, acc)
    ensures Blank(ws) && GoodMembers(members) ==> GoodMembers(WidenKey(members, ws))
  {
    hide PrintMember, Denote, Chars, GoodMembers, Blank;
    var w, m := WidenKey(members, ws), members[0];
    assert w[1..] == members[1..];
    WidenedKey(m, ws);
    if Blank(ws) && GoodMembers(members) { WidenedGood(members, ws); }
  }

  lemma ObjectReads(s: string, i: nat, j: nat, k: nat, members: seq<Member>, n: nat, v: Value)
    requires i <= j < k <= n <= |s| && j == SkipSpace(s, i) && k == SkipSpace(s, j + 1) && s[j] == '{'
    requires members != [] && GoodMembers(members) && s[k..n] == PrintMembers(members) + ['}']
    requires v == Object(DenoteMembers(members, map[]))
    ensures Reads(s, i, n, s[i..j], DObject([], WidenKey(members, s[j + 1..k])), v)
  {
    hide SkipSpace, PrintMembers, DenoteMembers, GoodMember;
    SkippedBlank(s, i);
    SkippedBlank(s, j + 1);
    WidenKeyPrints(members, s[j + 1..k], map[]);
    var inside := s[j + 1..k] + PrintMembers(members);
    assert s[i..n] == s[i..j] + ([s[j]] + s[j + 1..k] + s[k..n]);
    assert [s[j]] + s[j + 1..k] + (PrintMembers(members) + ['}']) == ['{'] + inside + ['}'];
  }

  /** A key that was found was spelled out, with its colon. */
  lemma KeySpelled(s: string, i: nat) returns (lead: string, cs: seq<Spelling>, mid: string)
    requires i <= |s| && ParseKey(s, i).0.Some?
    ensures Blank(lead) && GoodString(cs) && Blank(mid) && Chars(cs) == ParseKey(s, i).0.value
    ensures var n := ParseKey(s, i).1;
            i < n <= |s| && s[i..n] == lead + ((['\"'] + PrintChars(cs) + ['\"']) + (mid + [':']))
  {
    hide SkipSpace, PrintChars, Chars, GoodString, StringBody;
    SkippedBlank(s, i);
    var j := SkipSpace(s, i);
    if Unclosed(s, j) { UnclosedEnds(s, j); }
    cs := StringSpelled(s, j);
    var k := ParseString(s, j).1;
    SkippedBlank(s, k);
    var c := SkipSpace(s, k);
    lead, mid := s[i..j], s[k..c];
    Splits(s, i, j, c + 1);
    Splits(s, j, k, c + 1);
    Splits(s, k, c, c + 1);
    assert s[c..c + 1] == [s[c]];
  }

  lemma {:induction false} MembersKeepError(s: string, i: nat, acc: map<string, Value>, error: bool)
    requires i <= |s| + 1 && ParseMembers(s, i, acc, error).Parsed? && !ParseMembers(s, i, acc, error).error
    ensures ParseKey(s, i).0.Some? && ParseValue(s, ParseKey(s, i).1).Parsed?
    ensures !error && !ParseValue(s, ParseKey(s, i).1).error
    decreases |s| + 1 - i
  {
    hide ParseValue, ParseKey;
    var (key, n) := ParseKey(s, i);
    var v := ParseValue(s, n);
    var m := SkipSpace(s, v.next);
    if m < |s| && s[m] == ',' { MembersKeepError(s, m + 1, acc[key.value := v.value], error || v.error); }
  }

  lemma MemberClosed(s: string, i: nat, acc: map<string, Value>, error: bool)
    requires i <= |s| && ParseMembers(s, i, acc, error).Parsed? && !ParseMembers(s, i, acc, error).error
    ensures ParseKey(s, i).0.Some? && !error
    ensures var key, n := ParseKey(s, i).0.value, ParseKey(s, i).1; var v := ParseValue(s, n);
            && v.Parsed? && !v.error && n <= |s| && !Unclosed(s, SkipSpace(s, n))
            && var j := SkipSpace(s, v.next);
               && i < n < v.next <= |s| && j < |s| && (s[j] == ',' || s[j] == '}')
               && (s[j] == ',' ==>
                   ParseMembers(s, i, acc, error) == ParseMembers(s, j + 1, acc[key := v.value], error || v.error))
               && (s[j] == '}' ==> ParseMembers(s, i, acc, error) == Parsed(Object(acc[key := v.value]), j + 1, false))
  {
    hide ParseValue, ParseKey;
    MembersKeepError(s, i, acc, error);
    var n := ParseKey(s, i).1;
    ValueAdvances(s, n);
    if Unclosed(s, SkipSpace(s, n)) { UnclosedValue(s, n); }
  }

  lemma {:induction false} MembersSpelled(s: string, i: nat, acc: map<string, Value>, error: bool)
    returns (members: seq<Member>)
    requires i <= |s| && ParseMembers(s, i, acc, error).Parsed? && !ParseMembers(s, i, acc, error).error
    ensures members != [] && GoodMembers(members) && !error
    ensures var r := ParseMembers(s, i, acc, error);
            && i <= r.next <= |s| && s[i..r.next] == PrintMembers(members) + ['}']
            && r.value == Object(DenoteMembers(members, acc))
    decreases |s| - i, 1
  {
    hide SkipSpace, Print, Denote, Good, ParseValue, ParseKey, ParseMembers, PrintPadded, Unclosed, GoodString, Chars,
         PrintChars, Keyed, PrintMember, PrintMembers, DenoteMembers, Reads, GoodPadded, GoodMember, GoodMembers, Blank;
    MemberClosed(s, i, acc, error);
    var k, n := ParseKey(s, i).0.value, ParseKey(s, i).1;
    var lead, cs, mid := KeySpelled(s, i);
    var v := ParseValue(s, n);
    var j := SkipSpace(s, v.next);
    var d := ValueSpelled(s, n);
    var p := ItemSpelled(s, n, v.next, s[n..SkipSpace(s, n)], d, v.value, j);
    ReadsValue(s, n, v.next, s[n..SkipSpace(s, n)], d, v.value);
    var m := Member(lead, cs, mid, p);
    MemberIsGood(lead, cs, mid, p);
    MemberText(s, i, n, j, m);
    if s[j] == ',' {
      var rest := MembersSpelled(s, j + 1, acc[k := v.value], error || v.error);
      members := [m] + rest;
      MembersMore(s, i, j, ParseMembers(s, i, acc, error).next, m, rest, acc);
    } else {
      members := [m];
      MembersEnd(s, i, j, m, acc);
    }
  }

  lemma MemberIsGood(lead: string, cs: seq<Spelling>, mid: string, p: Padded)
    requires Blank(lead) && GoodString(cs) && Blank(mid) && GoodPadded(p)
    ensures GoodMember(Member(lead, cs, mid, p))
  {
    hide Blank, GoodString, Good;
  }

  lemma MembersMore(s: string, i: nat, j: nat, n: nat, m: Member, rest: seq<Member>, acc: map<string, Value>)
    requires i <= j < n <= |s| && s[i..j] == PrintMember(m) && s[j] == ',' && rest != []
    requires s[j + 1..n] == PrintMembers(rest) + ['}'] && GoodMember(m) && GoodMembers(rest)
    ensures var members := [m] + rest;
            && s[i..n] == PrintMembers(members) + ['}'] && GoodMembers(members)
            && DenoteMembers(members, acc) == DenoteMembers(rest, acc[Chars(m.key) := Denote(m.value.doc)])
  {
    hide Keyed, Denote, GoodMember, PrintMember, Chars;
    var members := [m] + rest;
    assert members[1..] == rest;
    assert s[i..n] == s[i..j] + ([s[j]] + s[j + 1..n]);
    assert PrintMember(m) + ([','] + (PrintMembers(rest) + ['}'])) ==
           (PrintMember(m) + ([','] + PrintMembers(rest))) + ['}'];
    forall q | 0 <= q < |members| ensures GoodMember(members[q]) {
      if q > 0 { assert members[q] == rest[q - 1]; }
    }
  }

  lemma MembersEnd(s: string, i: nat, j: nat, m: Member, acc: map<string, Value>)
    requires i <= j < |s| && s[i..j] == PrintMember(m) && s[j] == '}' && GoodMember(m)
    ensures s[i..j + 1] == PrintMembers([m]) + ['}'] && GoodMembers([m])
    ensures DenoteMembers([m], acc) == acc[Chars(m.key) := Denote(m.value.doc)]
  {
    hide Keyed, Denote, GoodMember, PrintMember, Chars;
    assert s[i..j + 1] == s[i..j] + [s[j]];
    assert PrintMember(m) + [] == PrintMember(m);
    assert [m][1..] == [];
  }

  lemma MemberText(s: string, i: nat, n: nat, j: nat, m: Member)
    requires i <= n <= j <= |s| && s[n..j] == PrintPadded(m.value)
    requires s[i..n] == m.lead + ((['\"'] + PrintChars(m.key) + ['\"']) + (m.mid + [':']))
    ensures s[i..j] == PrintMember(m)
  {
    hide PrintPadded, PrintChars;
    Splits(s, i, n, j);
    var q := ['\"'] + PrintChars(m.key) + ['\"'];
    assert m.lead + (q + (m.mid + [':'])) + PrintPadded(m.value) ==
           m.lead + (q + (m.mid + ([':'] + PrintPadded(m.value))));
  }

  // ---- the exact acceptance ----------------------------------------------------------

  /** The text begins with white space, then a document that denotes `v`. */
  ghost predicate Begun(s: string, v: Value) {
    exists pre, d, t :: Blank(pre) && Good(d) && EndsBefore(d, t) && s == pre + (Print(d) + t) && v == Denote(d)
  }

  /** The text is white space and a string nobody closes, which reads as `v`. */
  predicate LeftOpen(s: string, v: Value) {
    var j := SkipSpace(s, 0);
    Unclosed(s, j) && v == Str(ParseString(s, j).0)
  }

  /**
   The reader accepts a text, with value `v`, exactly if the text begins with a document that
   denotes `v` (whatever follows it), or is a string left open at the end of the text.
   */
  lemma AcceptsIff(s: string, v: Value)
    ensures Parse(s) == Some((v, true)) <==> Begun(s, v) || LeftOpen(s, v)
  {
    if Parse(s) == Some((v, true)) {
      AcceptedIsSpelled(s, v);
    }
    if Begun(s, v) {
      SpelledIsAccepted(s, v);
    }
    if LeftOpen(s, v) {
      hide ParseString, SkipSpace, ParseElements, ParseMembers;
      Dispatch(s, 0, SkipSpace(s, 0));
    }
  }

  lemma AcceptedIsSpelled(s: string, v: Value)
    requires Parse(s) == Some((v, true))
    ensures Begun(s, v) || LeftOpen(s, v)
  {
    hide ParseValue, SkipSpace, Print, Denote, Good, Unclosed, ParseString, Blank;
    var j := SkipSpace(s, 0);
    if Unclosed(s, j) {
      OpenValue(s);
    } else {
      var n := ParseValue(s, 0).next;
      var d := ValueSpelled(s, 0);
      assert s == s[0..n] + s[n..];
      assert s[0..j] + Print(d) + s[n..] == s[0..j] + (Print(d) + s[n..]);
    }
  }

  lemma OpenValue(s: string)
    requires Unclosed(s, SkipSpace(s, 0))
    ensures ParseValue(s, 0) == Parsed(Str(ParseString(s, SkipSpace(s, 0)).0), ParseString(s, SkipSpace(s, 0)).1, false)
  {
    hide ParseString, SkipSpace, ParseElements, ParseMembers;
    Dispatch(s, 0, SkipSpace(s, 0));
  }

  lemma SpelledIsAccepted(s: string, v: Value)
    requires Begun(s, v)
    ensures Parse(s) == Some((v, true))
  {
    hide ParseValue, Print, Denote, Good, Blank;
    var pre, d, t :| Blank(pre) && Good(d) && EndsBefore(d, t) && s == pre + (Print(d) + t) && v == Denote(d);
    assert s[0..] == s;
    DocParses(s, 0, pre, d, t);
  }
}
