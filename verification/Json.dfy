/** JSON values and the canonical printer of `extensions/_shared/structured-output.ts`. */
module Json {

  /** JavaScript strings are sequences of UTF-16 code units. */
  type CodeUnit = n: int | 0 <= n < 0x10000

  type Text = seq<CodeUnit>

  /** A finite double is an integral multiple of 2 to the power -1074; `units` is
      that multiple.  `JSON.parse` turns a numeral like 1e999 into an infinity. */
  datatype Number = Finite(units: int) | Infinite(negative: bool)

  datatype Member = Member(key: Text, value: Json)

  /** An object is the list of its members in enumeration order. */
  datatype Json =
    | Null
    | Bool(b: bool)
    | Num(n: Number)
    | Str(s: Text)
    | Arr(items: seq<Json>)
    | Obj(members: seq<Member>)

  ghost predicate DistinctKeys(ms: seq<Member>) {
    forall i, j | 0 <= i < j < |ms| :: ms[i].key != ms[j].key
  }

  /** Objects have each key once, at every level, as after `JSON.parse`. */
  ghost predicate WellFormed(v: Json) {
    match v
    case Arr(items) => forall i | 0 <= i < |items| :: WellFormed(items[i])
    case Obj(ms) => DistinctKeys(ms) && forall i | 0 <= i < |ms| :: WellFormed(ms[i].value)
    case _ => true
  }

  ghost predicate AllFinite(v: Json) {
    match v
    case Num(n) => n.Finite?
    case Arr(items) => forall i | 0 <= i < |items| :: AllFinite(items[i])
    case Obj(ms) => forall i | 0 <= i < |ms| :: AllFinite(ms[i].value)
    case _ => true
  }

  /** Equality of JSON values: section 4.2.2 of JSON Schema Core, draft 2020-12. */
  ghost predicate DeepEqual(a: Json, b: Json) {
    match a
    case Null => b.Null?
    case Bool(x) => b == Bool(x)
    case Num(n) => b == Num(n)
    case Str(s) => b == Str(s)
    case Arr(xs) =>
      b.Arr? && |xs| == |b.items| && forall i | 0 <= i < |xs| :: DeepEqual(xs[i], b.items[i])
    case Obj(ms) =>
      b.Obj? && |ms| == |b.members| &&
      forall i | 0 <= i < |ms| ::
        exists j :: 0 <= j < |b.members| && ms[i].key == b.members[j].key && DeepEqual(ms[i].value, b.members[j].value)
  }

  // ------------------------------------------------------------- key order

  /** The default order of `Array.prototype.sort` on strings. */
  predicate KeyLess(a: Text, b: Text) {
    b != [] && (a == [] || a[0] < b[0] || (a[0] == b[0] && KeyLess(a[1..], b[1..])))
  }

  function Insert(m: Member, ms: seq<Member>): (r: seq<Member>)
    ensures |r| == |ms| + 1
    ensures forall x :: x in r <==> x == m || x in ms
  {
    if ms == [] || !KeyLess(ms[0].key, m.key) then [m] + ms else [ms[0]] + Insert(m, ms[1..])
  }

  function SortMembers(ms: seq<Member>): (r: seq<Member>)
    ensures |r| == |ms|
    ensures forall x :: x in r <==> x in ms
  {
    if ms == [] then [] else Insert(ms[0], SortMembers(ms[1..]))
  }

  // --------------------------------------------------------------- printing

  const QUOTE: CodeUnit := 34
  const MINUS: CodeUnit := 45
  const COMMA: CodeUnit := 44
  const COLON: CodeUnit := 58
  const LBRACKET: CodeUnit := 91
  const BACKSLASH: CodeUnit := 92
  const RBRACKET: CodeUnit := 93
  const LBRACE: CodeUnit := 123
  const RBRACE: CodeUnit := 125
  const NULL_TEXT: Text := [110, 117, 108, 108]
  const TRUE_TEXT: Text := [116, 114, 117, 101]
  const FALSE_TEXT: Text := [102, 97, 108, 115, 101]

  predicate IsHighSurrogate(u: CodeUnit) { 0xD800 <= u < 0xDC00 }

  predicate IsLowSurrogate(u: CodeUnit) { 0xDC00 <= u < 0xE000 }

  predicate StartsWithPair(s: Text) {
    |s| >= 2 && IsHighSurrogate(s[0]) && IsLowSurrogate(s[1])
  }

  /** How many code units the first code point takes. */
  function Width(s: Text): nat
    requires s != []
  {
    if StartsWithPair(s) then 2 else 1
  }

  function HexDigit(n: int): CodeUnit
    requires 0 <= n < 16
  {
    if n < 10 then 48 + n else 87 + n
  }

  function UnicodeEscape(u: CodeUnit): Text {
    [BACKSLASH, 117, HexDigit(u / 0x1000), HexDigit(u / 0x100 % 16), HexDigit(u / 0x10 % 16), HexDigit(u % 16)]
  }

  /** What `JSON.stringify` writes for the first code point of a string. */
  function Token(s: Text): Text
    requires s != []
  {
    var u := s[0];
    if StartsWithPair(s) then s[..2]
    else if u == 8 then [BACKSLASH, 98]
    else if u == 9 then [BACKSLASH, 116]
    else if u == 10 then [BACKSLASH, 110]
    else if u == 12 then [BACKSLASH, 102]
    else if u == 13 then [BACKSLASH, 114]
    else if u == QUOTE || u == BACKSLASH then [BACKSLASH, u]
    else if u < 0x20 || IsHighSurrogate(u) || IsLowSurrogate(u) then UnicodeEscape(u)
    else [u]
  }

  function Escape(s: Text): Text {
    if s == [] then [] else Token(s) + Escape(s[Width(s)..])
  }

  function Quote(s: Text): Text {
    [QUOTE] + Escape(s) + [QUOTE]
  }

  function Digits(n: nat): Text {
    if n < 10 then [48 + n] else Digits(n / 10) + [48 + n % 10]
  }

  /** Stands for the shortest decimal text of a double: an injective rendering over
      the characters of numerals.  Infinities print as null. */
  function NumberText(n: Number): Text {
    match n
    case Finite(k) => if k < 0 then [MINUS] + Digits(-k) else Digits(k)
    case Infinite(_) => NULL_TEXT
  }

  function Join(parts: seq<Text>): Text {
    if |parts| == 0 then [] else if |parts| == 1 then parts[0] else parts[0] + [COMMA] + Join(parts[1..])
  }

  /** Structural recursion through sorted members needs the members to be smaller. */
  function CanonicalJson(v: Json): Text {
    match v
    case Null => NULL_TEXT
    case Bool(b) => if b then TRUE_TEXT else FALSE_TEXT
    case Num(n) => NumberText(n)
    case Str(s) => Quote(s)
    case Arr(items) =>
      [LBRACKET] + Join(seq(|items|, i requires 0 <= i < |items| => CanonicalJson(items[i]))) + [RBRACKET]
    case Obj(ms) =>
      var sorted := SortMembers(ms);
      [LBRACE] +
      Join(seq(|sorted|, i requires 0 <= i < |sorted| =>
        assert sorted[i] in ms;
        Quote(sorted[i].key) + [COLON] + CanonicalJson(sorted[i].value))) +
      [RBRACE]
  }
}
