/** What the canonical printer writes is JSON (`extensions/_shared/structured-output.ts`). */
module JsonStrings {
  // Strings are read back by the rules of section 7 of RFC 8259.

  import opened Json
  import opened SchemaMeaning
  import opened Wrappers

  function HexValue(u: CodeUnit): Option<int> {
    if 48 <= u <= 57 then Some(u as int - 48)
    else if 97 <= u <= 102 then Some(u as int - 87)
    else if 65 <= u <= 70 then Some(u as int - 55)
    else None
  }

  /** What stands after a backslash, but for four hexadecimal digits. */
  function Unescaped(u: CodeUnit): Option<CodeUnit> {
    match u as int
    case 34 => Some(34)
    case 92 => Some(92)
    case 47 => Some(47)
    case 98 => Some(8)
    case 102 => Some(12)
    case 110 => Some(10)
    case 114 => Some(13)
    case 116 => Some(9)
    case _ => None
  }

  function Hex4(t: Text): Option<CodeUnit>
    requires |t| >= 4
  {
    var a, b, c, d := HexValue(t[0]), HexValue(t[1]), HexValue(t[2]), HexValue(t[3]);
    if a.None? || b.None? || c.None? || d.None? then None
    else Some(((a.value * 16 + b.value) * 16 + c.value) * 16 + d.value)
  }

  /** One unit of a string, and how much of the text it takes. */
  function ReadUnit(t: Text): (r: Option<(CodeUnit, nat)>)
    requires t != []
    ensures r.Some? ==> 1 <= r.value.1 <= |t|
  {
    if t[0] == 92 then
      if |t| >= 6 && t[1] == 117 then
        var u := Hex4(t[2..6]);
        if u.None? then None else Some((u.value, 6))
      else if |t| >= 2 && Unescaped(t[1]).Some? then Some((Unescaped(t[1]).value, 2))
      else None
    else if t[0] < 0x20 then None
    else Some((t[0], 1))
  }

  /** The string up to its closing quote, and what follows it. */
  function ReadString(t: Text): Option<(Text, Text)>
    decreases |t|
  {
    if t == [] then None
    else if t[0] == 34 then Some(([], t[1..]))
    else
      var unit := ReadUnit(t);
      if unit.None? then None
      else
        var rest := ReadString(t[unit.value.1..]);
        if rest.None? then None else Some(([unit.value.0] + rest.value.0, rest.value.1))
  }

  lemma HexDigitIsRead(n: int)
    requires 0 <= n < 16
    ensures HexValue(HexDigit(n)) == Some(n)
  {
  }

  lemma UnicodeEscapeIsRead(u: CodeUnit, rest: Text)
    ensures ReadUnit(UnicodeEscape(u) + rest) == Some((u, 6))
  {
    hide HexValue, HexDigit;
    var a, b, c, d := u / 0x1000, u / 0x100 % 16, u / 0x10 % 16, u % 16;
    HexDigitIsRead(a);
    HexDigitIsRead(b);
    HexDigitIsRead(c);
    HexDigitIsRead(d);
    var t := UnicodeEscape(u) + rest;
    assert t[2..6] == [HexDigit(a), HexDigit(b), HexDigit(c), HexDigit(d)];
    FourDigits(u);
  }

  lemma FourDigits(u: int)
    requires 0 <= u < 0x10000
    ensures ((u / 0x1000 * 16 + u / 0x100 % 16) * 16 + u / 0x10 % 16) * 16 + u % 16 == u
  {
    var q := u / 16;
    var p := q / 16;
    assert u == q * 16 + u % 16 && q == p * 16 + q % 16 && p == p / 16 * 16 + p % 16;
  }

  /** The token of one code point is read as its units. */
  lemma TokenIsRead(s: Text, rest: Text)
    requires s != []
    ensures
      var t := Token(s) + rest;
      && t[0] != 34
      && if StartsWithPair(s) then
           && Token(s) == s[..2] && ReadUnit(t) == Some((s[0], 1)) && t[1..][0] != 34
           && ReadUnit(t[1..]) == Some((s[1], 1)) && t[1..][1..] == rest
         else
           var n: nat := |Token(s)|;
           ReadUnit(t) == Some((s[0], n)) && t[n..] == rest
  {
    hide UnicodeEscape;
    var t := Token(s) + rest;
    if StartsWithPair(s) {
      assert t[1..] == [s[1]] + rest;
    } else {
      EscapeShape(s[0]);
      UnicodeEscapeIsRead(s[0], rest);
    }
  }

  lemma EscapeShape(u: CodeUnit)
    ensures |UnicodeEscape(u)| == 6 && UnicodeEscape(u)[0] == 92
  {
  }

  lemma ReadOne(t: Text, u: CodeUnit, n: nat, s: Text, rest: Text)
    requires t != [] && t[0] != 34 && ReadUnit(t) == Some((u, n))
    requires ReadString(t[n..]) == Some((s, rest))
    ensures ReadString(t) == Some(([u] + s, rest))
  {
    hide ReadUnit;
  }

  lemma ReadEnd(rest: Text)
    ensures ReadString([QUOTE] + rest) == Some(([], rest))
  {
    assert ([QUOTE] + rest)[1..] == rest;
  }

  lemma EscapeStep(s: Text, tail: Text)
    requires s != []
    ensures Escape(s) + tail == Token(s) + (Escape(s[Width(s)..]) + tail)
  {
    hide Token;
  }

  /** Every string is read back from its printed form, whatever follows. */
  lemma {:induction false} QuotedIsRead(s: Text, rest: Text)
    ensures ReadString(Escape(s) + ([QUOTE] + rest)) == Some((s, rest))
    decreases |s|
  {
    hide Token, ReadUnit, ReadString;
    var tail := [QUOTE] + rest;
    if s == [] {
      ReadEnd(rest);
      assert Escape(s) + tail == tail;
    } else {
      var n := Width(s);
      QuotedIsRead(s[n..], rest);
      var more := Escape(s[n..]) + tail;
      EscapeStep(s, tail);
      TokenIsRead(s, more);
      var t := Token(s) + more;
      if StartsWithPair(s) {
        ReadOne(t[1..], s[1], 1, s[2..], rest);
        ReadOne(t, s[0], 1, [s[1]] + s[2..], rest);
        assert [s[0]] + ([s[1]] + s[2..]) == s;
      } else {
        ReadOne(t, s[0], |Token(s)|, s[1..], rest);
        assert [s[0]] + s[1..] == s;
      }
    }
  }

  /** The literal names are those of JSON. */
  lemma LiteralsAreJson(b: bool)
    ensures CanonicalJson(Null) == Ascii("null")
    ensures CanonicalJson(Bool(b)) == Ascii(if b then "true" else "false")
  {
    SameText("null", NULL_TEXT);
    SameText("true", TRUE_TEXT);
    SameText("false", FALSE_TEXT);
  }

  lemma SameText(s: string, t: Text)
    requires |s| == |t| && forall i | 0 <= i < |s| :: s[i] as int < 0x80 && t[i] == s[i] as int
    ensures Ascii(s) == t
  {
  }

  /** So are the structural characters. */
  lemma StructureIsJson()
    ensures [LBRACKET] == Ascii("[") && [RBRACKET] == Ascii("]") && [LBRACE] == Ascii("{") && [RBRACE] == Ascii("}")
    ensures [COMMA] == Ascii(",") && [COLON] == Ascii(":") && [QUOTE] == Ascii("\"")
  {
  }
}
