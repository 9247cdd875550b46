/** The character classes of the JSON reader, and how it converts numbers (dee.cpp/src/json_min.cpp). */
module JsonNumbers {
  import opened Wrappers
  import opened JsonSpec
  import opened Decimals

  lemma CharactersAre(c: char)
    ensures IsSpace(c) <==> c == ' ' || c == '\t' || c == '\n' || c as int == 11 || c as int == 12 || c == '\r'
    ensures IsDigit(c) <==> c in "0123456789"
    ensures IsNumberChar(c) <==> c in "0123456789.eE+-"
  {
  }

  lemma {:induction false} LeadingOf(ds: string, rest: string)
    requires AllDigits(ds) && (rest == [] || !IsDigit(rest[0]))
    ensures LeadingDigits(ds + rest) == ds
  {
    if ds == [] {
      assert ds + rest == rest;
    } else {
      assert (ds + rest)[1..] == ds[1..] + rest;
      LeadingOf(ds[1..], rest);
    }
  }

  /** std::stoll takes a sign and the digits after it, whatever follows, and throws without digits or beyond 64 bits. */
  lemma StollTakes(sign: string, ds: string, rest: string)
    requires sign in ["", "-", "+"] && AllDigits(ds) && (rest == [] || !IsDigit(rest[0]))
    requires sign == "" && ds == [] ==> rest == [] || (rest[0] != '-' && rest[0] != '+')
    ensures var v := if sign == "-" then -DigitsValue(ds) else DigitsValue(ds);
            Stoll(sign + ds + rest) ==
            if ds != [] && -0x8000_0000_0000_0000 <= v <= 0x7fff_ffff_ffff_ffff then Some(v) else None
  {
    hide DigitsValue, LeadingDigits;
    LeadingOf(ds, rest);
    var t := sign + ds + rest;
    if sign == "" {
      assert t == ds + rest;
      if ds != [] { assert t[0] == ds[0] && IsDigit(ds[0]); }
    } else {
      assert t[0] == sign[0] && t[1..] == ds + rest;
    }
  }

  /** The digits of a number weigh ten times more a place further left. */
  lemma DigitsWeigh(ds: string, d: char)
    requires IsDigit(d)
    ensures DigitsValue(ds + [d]) == 10 * DigitsValue(ds) + (d as int - 48) && DigitsValue("") == 0
  {
    assert (ds + [d])[..|ds|] == ds;
  }

  /** std::stod finds a number exactly after an optional sign and an optional point. */
  lemma MantissaIff(t: string)
    ensures HasMantissa(t) <==>
            exists sign, point, d, rest :: sign in ["", "-", "+"] && point in ["", "."] && IsDigit(d)
                                           && t == sign + point + [d] + rest
  {
    if HasMantissa(t) {
      var sign := if t[0] == '-' then "-" else if t[0] == '+' then "+" else "";
      var u := t[|sign|..];
      var point := if u[0] == '.' then "." else "";
      assert t == sign + point + [u[|point|]] + u[|point| + 1..];
    }
    if sign, point, d, rest :| sign in ["", "-", "+"] && point in ["", "."] && IsDigit(d)
                               && t == sign + point + [d] + rest {
      MantissaThere(sign, point, d, rest);
    }
  }

  lemma MantissaThere(sign: string, point: string, d: char, rest: string)
    requires sign in ["", "-", "+"] && point in ["", "."] && IsDigit(d)
    ensures HasMantissa(sign + point + [d] + rest)
  {
    var t := sign + point + [d] + rest;
    if sign == "" {
      assert t == point + [d] + rest;
    } else {
      assert t[0] == sign[0] && t[1..] == point + [d] + rest;
    }
  }
}
