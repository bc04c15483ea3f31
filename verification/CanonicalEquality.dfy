/** `canonicalJson` decides deep equality, reading infinities as null. */
module CanonicalEquality {
  import opened Json

  function PrintMember(m: Member): Text {
    Quote(m.key) + [COLON] + CanonicalJson(m.value)
  }

  /** The elements of an array, as they appear between the brackets. */
  function PrintItems(xs: seq<Json>): Text {
    if |xs| == 0 then []
    else if |xs| == 1 then CanonicalJson(xs[0])
    else CanonicalJson(xs[0]) + [COMMA] + PrintItems(xs[1..])
  }

  function PrintMembers(ms: seq<Member>): Text {
    if |ms| == 0 then []
    else if |ms| == 1 then PrintMember(ms[0])
    else PrintMember(ms[0]) + [COMMA] + PrintMembers(ms[1..])
  }

  function ItemTexts(xs: seq<Json>): seq<Text> {
    seq(|xs|, i requires 0 <= i < |xs| => CanonicalJson(xs[i]))
  }

  function MemberTexts(ms: seq<Member>): seq<Text> {
    seq(|ms|, i requires 0 <= i < |ms| => PrintMember(ms[i]))
  }

  lemma {:induction false} JoinItems(xs: seq<Json>)
    ensures Join(ItemTexts(xs)) == PrintItems(xs)
  {
    if |xs| > 1 {
      JoinItems(xs[1..]);
      assert ItemTexts(xs)[1..] == ItemTexts(xs[1..]);
    }
  }

  lemma {:induction false} JoinMembers(ms: seq<Member>)
    ensures Join(MemberTexts(ms)) == PrintMembers(ms)
  {
    if |ms| > 1 {
      JoinMembers(ms[1..]);
      assert MemberTexts(ms)[1..] == MemberTexts(ms[1..]);
    }
  }

  lemma CanonicalArr(xs: seq<Json>)
    ensures CanonicalJson(Arr(xs)) == [LBRACKET] + PrintItems(xs) + [RBRACKET]
  {
    JoinItems(xs);
    assert ItemTexts(xs) == seq(|xs|, i requires 0 <= i < |xs| => CanonicalJson(xs[i]));
  }

  lemma CanonicalObj(ms: seq<Member>)
    ensures CanonicalJson(Obj(ms)) == [LBRACE] + PrintMembers(SortMembers(ms)) + [RBRACE]
  {
    var sorted := SortMembers(ms);
    JoinMembers(sorted);
    assert MemberTexts(sorted) ==
           seq(|sorted|, i requires 0 <= i < |sorted| =>
              Quote(sorted[i].key) + [COLON] + CanonicalJson(sorted[i].value));
  }

  // ------------------------------------------------------- two texts compared

  lemma Assoc(a: Text, b: Text, c: Text)
    ensures (a + b) + c == a + (b + c)
  {
  }

  lemma EmptyLeft(c: Text)
    ensures [] + c == c
  {
  }

  lemma SameLengthSplit(p: Text, q: Text, x: Text, y: Text)
    requires p + x == q + y && |p| == |q|
    ensures p == q && x == y
  {
    assert p == (p + x)[..|p|] == (q + y)[..|q|] == q;
    assert x == (p + x)[|p|..] == (q + y)[|q|..] == y;
  }

  lemma SameHead(p: Text, q: Text, x: Text, y: Text)
    requires p + x == q + y && p != [] && q != []
    ensures p[0] == q[0]
  {
    assert p[0] == (p + x)[0] == (q + y)[0] == q[0];
  }

  // ------------------------------------------------- strings read back uniquely

  lemma HexDigitInjective(m: int, n: int)
    requires 0 <= m < 16 && 0 <= n < 16 && HexDigit(m) == HexDigit(n)
    ensures m == n
  {
  }

  lemma HexDigits(u: CodeUnit)
    ensures 0 <= u / 0x1000 < 16
    ensures u == (u / 0x1000) * 0x1000 + (u / 0x100 % 16) * 0x100 + (u / 0x10 % 16) * 0x10 + u % 16
  {
  }

  lemma UnicodeEscapeInjective(u: CodeUnit, v: CodeUnit)
    requires UnicodeEscape(u) == UnicodeEscape(v)
    ensures u == v
  {
    var a, b := UnicodeEscape(u), UnicodeEscape(v);
    HexDigits(u);
    HexDigits(v);
    assert a[2] == b[2] && a[3] == b[3] && a[4] == b[4] && a[5] == b[5];
    HexDigitInjective(u / 0x1000, v / 0x1000);
    HexDigitInjective(u / 0x100 % 16, v / 0x100 % 16);
    HexDigitInjective(u / 0x10 % 16, v / 0x10 % 16);
    HexDigitInjective(u % 16, v % 16);
  }

  /** No token is a proper prefix of another one, and a token tells its code point. */
  lemma TokenUnique(s: Text, t: Text, x: Text, y: Text)
    requires s != [] && t != [] && Token(s) + x == Token(t) + y
    ensures s[..Width(s)] == t[..Width(t)] && x == y
  {
    var p, q := Token(s), Token(t);
    assert (p + x)[0] == (q + y)[0];
    assert |p| >= 2 ==> (p + x)[1] == p[1];
    assert |q| >= 2 ==> (q + y)[1] == q[1];
    assert |p| == |q|;
    SameLengthSplit(p, q, x, y);
    if |p| == 6 {
      UnicodeEscapeInjective(s[0], t[0]);
    }
  }

  lemma {:induction false} QuoteUnique(s: Text, t: Text, x: Text, y: Text)
    requires Escape(s) + ([QUOTE] + x) == Escape(t) + ([QUOTE] + y)
    ensures s == t && x == y
    decreases |s|
  {
    EmptyLeft([QUOTE] + x);
    EmptyLeft([QUOTE] + y);
    if s == [] && t == [] {
      SameLengthSplit([QUOTE], [QUOTE], x, y);
    } else if s == [] {
      Assoc(Token(t), Escape(t[Width(t)..]), [QUOTE] + y);
      SameHead([QUOTE], Token(t), x, Escape(t[Width(t)..]) + ([QUOTE] + y));
    } else if t == [] {
      Assoc(Token(s), Escape(s[Width(s)..]), [QUOTE] + x);
      SameHead(Token(s), [QUOTE], Escape(s[Width(s)..]) + ([QUOTE] + x), y);
    } else {
      var s', t' := s[Width(s)..], t[Width(t)..];
      Assoc(Token(s), Escape(s'), [QUOTE] + x);
      Assoc(Token(t), Escape(t'), [QUOTE] + y);
      TokenUnique(s, t, Escape(s') + ([QUOTE] + x), Escape(t') + ([QUOTE] + y));
      QuoteUnique(s', t', x, y);
      assert s == s[..Width(s)] + s' && t == t[..Width(t)] + t';
    }
  }

  lemma QuotedUnique(s: Text, t: Text, x: Text, y: Text)
    requires Quote(s) + x == Quote(t) + y
    ensures s == t && x == y
  {
    assert Quote(s) + x == [QUOTE] + (Escape(s) + ([QUOTE] + x));
    assert Quote(t) + y == [QUOTE] + (Escape(t) + ([QUOTE] + y));
    SameLengthSplit([QUOTE], [QUOTE], Escape(s) + ([QUOTE] + x), Escape(t) + ([QUOTE] + y));
    QuoteUnique(s, t, x, y);
  }

  // ------------------------------------------------- numbers read back uniquely

  predicate IsNumeral(u: CodeUnit) { u == MINUS || 48 <= u < 58 }

  predicate AllNumeral(s: Text) { forall i | 0 <= i < |s| :: IsNumeral(s[i]) }

  lemma DigitsAreNumerals(n: nat)
    ensures AllNumeral(Digits(n)) && |Digits(n)| > 0 && Digits(n)[0] != MINUS
  {
  }

  lemma {:induction false} DigitsInjective(m: nat, n: nat)
    requires Digits(m) == Digits(n)
    ensures m == n
  {
    DigitsAreNumerals(m / 10);
    DigitsAreNumerals(n / 10);
    assert Digits(m)[|Digits(m)| - 1] == 48 + m % 10;
    assert Digits(n)[|Digits(n)| - 1] == 48 + n % 10;
    if m >= 10 && n >= 10 {
      assert Digits(m / 10) == Digits(m)[..|Digits(m)| - 1];
      assert Digits(n / 10) == Digits(n)[..|Digits(n)| - 1];
      DigitsInjective(m / 10, n / 10);
    }
  }

  lemma NumberTextInjective(j: int, k: int)
    requires NumberText(Finite(j)) == NumberText(Finite(k))
    ensures j == k
  {
    DigitsAreNumerals(if j < 0 then -j else j);
    DigitsAreNumerals(if k < 0 then -k else k);
    if j < 0 && k < 0 {
      assert Digits(-j) == NumberText(Finite(j))[1..] == NumberText(Finite(k))[1..] == Digits(-k);
      DigitsInjective(-j, -k);
    } else if j >= 0 && k >= 0 {
      DigitsInjective(j, k);
    }
  }

  lemma NumberTextIsNumeral(k: int)
    ensures AllNumeral(NumberText(Finite(k))) && |NumberText(Finite(k))| > 0
  {
    DigitsAreNumerals(if k < 0 then -k else k);
  }

  lemma NumeralRunUnique(p: Text, q: Text, x: Text, y: Text)
    requires AllNumeral(p) && AllNumeral(q) && p + x == q + y
    requires (x != [] ==> !IsNumeral(x[0])) && (y != [] ==> !IsNumeral(y[0]))
    ensures p == q && x == y
  {
    var l := p + x;
    assert forall i | 0 <= i < |p| :: l[i] == p[i];
    assert forall i | 0 <= i < |q| :: l[i] == (q + y)[i] == q[i];
    assert |p| < |l| ==> l[|p|] == x[0];
    assert |q| < |l| ==> l[|q|] == (q + y)[|q|] == y[0];
    SameLengthSplit(p, q, x, y);
  }

  // -------------------------------------------------- values read back uniquely

  /** What may follow a value: nothing, a comma or a closing bracket. */
  predicate Ends(r: Text) {
    r == [] || r[0] == COMMA || r[0] == RBRACKET || r[0] == RBRACE
  }

  predicate DepthAtMost(v: Json, d: nat) {
    match v
    case Arr(items) => d > 0 && forall i | 0 <= i < |items| :: DepthAtMost(items[i], d - 1)
    case Obj(ms) => d > 0 && forall i | 0 <= i < |ms| :: DepthAtMost(ms[i].value, d - 1)
    case _ => true
  }

  lemma {:induction false} DeeperBound(v: Json, d: nat, e: nat)
    requires DepthAtMost(v, d) && d <= e
    ensures DepthAtMost(v, e)
  {
    match v
    case Arr(items) =>
      forall i | 0 <= i < |items|
        ensures DepthAtMost(items[i], e - 1)
      {
        DeeperBound(items[i], d - 1, e - 1);
      }
    case Obj(ms) =>
      forall i | 0 <= i < |ms|
        ensures DepthAtMost(ms[i].value, e - 1)
      {
        DeeperBound(ms[i].value, d - 1, e - 1);
      }
    case _ =>
  }

  lemma {:induction false} HasDepth(v: Json) returns (d: nat)
    ensures DepthAtMost(v, d)
  {
    match v
    case Arr(items) =>
      d := 0;
      for k := 0 to |items|
        invariant forall i | 0 <= i < k :: DepthAtMost(items[i], d)
      {
        var e := HasDepth(items[k]);
        var top := if d < e then e else d;
        forall i | 0 <= i <= k
          ensures DepthAtMost(items[i], top)
        {
          DeeperBound(items[i], if i < k then d else e, top);
        }
        d := top;
      }
      d := d + 1;
    case Obj(ms) =>
      d := 0;
      for k := 0 to |ms|
        invariant forall i | 0 <= i < k :: DepthAtMost(ms[i].value, d)
      {
        var e := HasDepth(ms[k].value);
        var top := if d < e then e else d;
        forall i | 0 <= i <= k
          ensures DepthAtMost(ms[i].value, top)
        {
          DeeperBound(ms[i].value, if i < k then d else e, top);
        }
        d := top;
      }
      d := d + 1;
    case _ =>
      d := 0;
  }

  /** The first character of a text tells what kind of value was printed. */
  lemma FirstCharacter(v: Json)
    requires AllFinite(v)
    ensures
      var t := CanonicalJson(v);
      |t| > 0 &&
      match v
      case Null => t == NULL_TEXT
      case Bool(b) => t == if b then TRUE_TEXT else FALSE_TEXT
      case Num(_) => IsNumeral(t[0])
      case Str(_) => t[0] == QUOTE
      case Arr(_) => t[0] == LBRACKET
      case Obj(_) => t[0] == LBRACE
  {
    if v.Num? {
      NumberTextIsNumeral(v.n.units);
    }
  }

  /** A printed value followed by an end of value can be read in one way only. */
  lemma {:induction false} ValueUnique(d: nat, a: Json, b: Json, x: Text, y: Text)
    requires AllFinite(a) && AllFinite(b) && DepthAtMost(a, d) && Ends(x) && Ends(y)
    requires CanonicalJson(a) + x == CanonicalJson(b) + y
    ensures DeepEqual(a, b) && x == y
    decreases d, 1
  {
    FirstCharacter(a);
    FirstCharacter(b);
    SameHead(CanonicalJson(a), CanonicalJson(b), x, y);
    match a
    case Null => SameLengthSplit(NULL_TEXT, NULL_TEXT, x, y);
    case Bool(_) => SameLengthSplit(CanonicalJson(a), CanonicalJson(b), x, y);
    case Num(n) =>
      NumberTextIsNumeral(n.units);
      NumberTextIsNumeral(b.n.units);
      NumeralRunUnique(NumberText(n), NumberText(b.n), x, y);
      NumberTextInjective(n.units, b.n.units);
    case Str(s) => QuotedUnique(s, b.s, x, y);
    case Arr(xs) => ArrayUnique(d, xs, b.items, x, y);
    case Obj(ms) => ObjectUnique(d, ms, b.members, x, y);
  }

  lemma ArrayText(xs: seq<Json>, x: Text)
    ensures CanonicalJson(Arr(xs)) + x == [LBRACKET] + (PrintItems(xs) + ([RBRACKET] + x))
  {
    CanonicalArr(xs);
    Assoc([LBRACKET] + PrintItems(xs), [RBRACKET], x);
    Assoc([LBRACKET], PrintItems(xs), [RBRACKET] + x);
  }

  lemma {:induction false} ArrayUnique(d: nat, xs: seq<Json>, ys: seq<Json>, x: Text, y: Text)
    requires AllFinite(Arr(xs)) && AllFinite(Arr(ys)) && DepthAtMost(Arr(xs), d)
    requires CanonicalJson(Arr(xs)) + x == CanonicalJson(Arr(ys)) + y
    ensures DeepEqual(Arr(xs), Arr(ys)) && x == y
    decreases d, 0
  {
    hide CanonicalJson;
    ArrayText(xs, x);
    ArrayText(ys, y);
    SameLengthSplit([LBRACKET], [LBRACKET], PrintItems(xs) + ([RBRACKET] + x), PrintItems(ys) + ([RBRACKET] + y));
    ItemsUnique(d - 1, xs, ys, x, y);
  }

  lemma ObjectText(ms: seq<Member>, x: Text)
    ensures CanonicalJson(Obj(ms)) + x == [LBRACE] + (PrintMembers(SortMembers(ms)) + ([RBRACE] + x))
  {
    CanonicalObj(ms);
    var p := PrintMembers(SortMembers(ms));
    Assoc([LBRACE] + p, [RBRACE], x);
    Assoc([LBRACE], p, [RBRACE] + x);
  }

  lemma {:induction false} ObjectUnique(d: nat, ms: seq<Member>, ns: seq<Member>, x: Text, y: Text)
    requires AllFinite(Obj(ms)) && AllFinite(Obj(ns)) && DepthAtMost(Obj(ms), d)
    requires CanonicalJson(Obj(ms)) + x == CanonicalJson(Obj(ns)) + y
    ensures DeepEqual(Obj(ms), Obj(ns)) && x == y
    decreases d, 0
  {
    hide CanonicalJson, SortMembers;
    var s, t := SortMembers(ms), SortMembers(ns);
    ObjectText(ms, x);
    ObjectText(ns, y);
    SameLengthSplit([LBRACE], [LBRACE], PrintMembers(s) + ([RBRACE] + x), PrintMembers(t) + ([RBRACE] + y));
    forall i | 0 <= i < |s|
      ensures AllFinite(s[i].value) && DepthAtMost(s[i].value, d - 1)
    {
      assert s[i] in ms;
    }
    forall i | 0 <= i < |t|
      ensures AllFinite(t[i].value)
    {
      assert t[i] in ns;
    }
    MembersUnique(d - 1, s, t, x, y);
    SameSortedMembers(ms, ns);
  }

  ghost predicate SamePairs(s: seq<Member>, t: seq<Member>) {
    |s| == |t| && forall i | 0 <= i < |s| :: s[i].key == t[i].key && DeepEqual(s[i].value, t[i].value)
  }

  lemma Partner(ms: seq<Member>, ns: seq<Member>, i: nat) returns (j: nat)
    requires SamePairs(SortMembers(ms), SortMembers(ns)) && i < |ms|
    ensures j < |ns| && ms[i].key == ns[j].key && DeepEqual(ms[i].value, ns[j].value)
  {
    hide DeepEqual;
    var s, t := SortMembers(ms), SortMembers(ns);
    assert ms[i] in s;
    var k: nat :| k < |s| && s[k] == ms[i];
    assert t[k] in ns;
    j :| j < |ns| && ns[j] == t[k];
  }

  lemma SameSortedMembers(ms: seq<Member>, ns: seq<Member>)
    requires SamePairs(SortMembers(ms), SortMembers(ns))
    ensures DeepEqual(Obj(ms), Obj(ns))
  {
    forall i | 0 <= i < |ms|
      ensures exists j :: 0 <= j < |ns| && ms[i].key == ns[j].key && DeepEqual(ms[i].value, ns[j].value)
    {
      var j := Partner(ms, ns, i);
    }
  }

  /** What follows the first element of a printed array. */
  function ItemsTail(xs: seq<Json>, x: Text): Text
    requires xs != []
  {
    if |xs| == 1 then [RBRACKET] + x else [COMMA] + (PrintItems(xs[1..]) + ([RBRACKET] + x))
  }

  lemma ItemsSplit(xs: seq<Json>, x: Text)
    requires xs != []
    ensures PrintItems(xs) + ([RBRACKET] + x) == CanonicalJson(xs[0]) + ItemsTail(xs, x)
  {
    if |xs| > 1 {
      Assoc(CanonicalJson(xs[0]), [COMMA], PrintItems(xs[1..]));
      Assoc(CanonicalJson(xs[0]), [COMMA] + PrintItems(xs[1..]), [RBRACKET] + x);
      Assoc([COMMA], PrintItems(xs[1..]), [RBRACKET] + x);
    }
  }

  lemma {:induction false} ItemsUnique(d: nat, xs: seq<Json>, ys: seq<Json>, x: Text, y: Text)
    requires forall i | 0 <= i < |xs| :: AllFinite(xs[i]) && DepthAtMost(xs[i], d)
    requires forall i | 0 <= i < |ys| :: AllFinite(ys[i])
    requires PrintItems(xs) + ([RBRACKET] + x) == PrintItems(ys) + ([RBRACKET] + y)
    ensures |xs| == |ys| && (forall i | 0 <= i < |xs| :: DeepEqual(xs[i], ys[i])) && x == y
    decreases d, 2 + 2 * |xs|
  {
    hide DeepEqual, AllFinite, DepthAtMost, CanonicalJson;
    EmptyLeft([RBRACKET] + x);
    EmptyLeft([RBRACKET] + y);
    if xs == [] && ys == [] {
      SameLengthSplit([RBRACKET], [RBRACKET], x, y);
    } else if xs == [] {
      ItemsSplit(ys, y);
      FirstCharacter(ys[0]);
      SameHead([RBRACKET], CanonicalJson(ys[0]), x, ItemsTail(ys, y));
    } else if ys == [] {
      ItemsSplit(xs, x);
      FirstCharacter(xs[0]);
      SameHead(CanonicalJson(xs[0]), [RBRACKET], ItemsTail(xs, x), y);
    } else {
      ItemsSplit(xs, x);
      ItemsSplit(ys, y);
      ValueUnique(d, xs[0], ys[0], ItemsTail(xs, x), ItemsTail(ys, y));
      ItemsTailUnique(d, xs, ys, x, y);
    }
  }

  lemma {:induction false} ItemsTailUnique(d: nat, xs: seq<Json>, ys: seq<Json>, x: Text, y: Text)
    requires xs != [] && ys != [] && ItemsTail(xs, x) == ItemsTail(ys, y)
    requires DeepEqual(xs[0], ys[0])
    requires forall i | 0 <= i < |xs| :: AllFinite(xs[i]) && DepthAtMost(xs[i], d)
    requires forall i | 0 <= i < |ys| :: AllFinite(ys[i])
    ensures |xs| == |ys| && (forall i | 0 <= i < |xs| :: DeepEqual(xs[i], ys[i])) && x == y
    decreases d, 1 + 2 * |xs|
  {
    hide DeepEqual, AllFinite, DepthAtMost, CanonicalJson;
    assert ItemsTail(xs, x)[0] == ItemsTail(ys, y)[0];
    assert |xs| == 1 <==> |ys| == 1;
    if |xs| == 1 {
      SameLengthSplit([RBRACKET], [RBRACKET], x, y);
    } else {
      var xs', ys' := xs[1..], ys[1..];
      SameLengthSplit([COMMA], [COMMA], PrintItems(xs') + ([RBRACKET] + x), PrintItems(ys') + ([RBRACKET] + y));
      ItemsUnique(d, xs', ys', x, y);
      assert forall i | 0 < i < |xs| :: xs[i] == xs'[i - 1] && ys[i] == ys'[i - 1];
    }
  }

  /** What follows the first member of a printed object. */
  function MembersTail(ms: seq<Member>, x: Text): Text
    requires ms != []
  {
    if |ms| == 1 then [RBRACE] + x else [COMMA] + (PrintMembers(ms[1..]) + ([RBRACE] + x))
  }

  lemma MembersSplit(ms: seq<Member>, x: Text)
    requires ms != []
    ensures PrintMembers(ms) + ([RBRACE] + x) ==
            Quote(ms[0].key) + ([COLON] + (CanonicalJson(ms[0].value) + MembersTail(ms, x)))
  {
    var k, c, tail := Quote(ms[0].key), CanonicalJson(ms[0].value), MembersTail(ms, x);
    Assoc(k, [COLON], c);
    Assoc(k, [COLON] + c, tail);
    Assoc([COLON], c, tail);
    if |ms| > 1 {
      Assoc(PrintMember(ms[0]), [COMMA], PrintMembers(ms[1..]));
      Assoc(PrintMember(ms[0]), [COMMA] + PrintMembers(ms[1..]), [RBRACE] + x);
      Assoc([COMMA], PrintMembers(ms[1..]), [RBRACE] + x);
    }
  }

  lemma {:induction false} MembersUnique(d: nat, ms: seq<Member>, ns: seq<Member>, x: Text, y: Text)
    requires forall i | 0 <= i < |ms| :: AllFinite(ms[i].value) && DepthAtMost(ms[i].value, d)
    requires forall i | 0 <= i < |ns| :: AllFinite(ns[i].value)
    requires PrintMembers(ms) + ([RBRACE] + x) == PrintMembers(ns) + ([RBRACE] + y)
    ensures |ms| == |ns| && x == y
    ensures forall i | 0 <= i < |ms| :: ms[i].key == ns[i].key && DeepEqual(ms[i].value, ns[i].value)
    decreases d, 2 + 2 * |ms|
  {
    hide DeepEqual, AllFinite, DepthAtMost, CanonicalJson;
    EmptyLeft([RBRACE] + x);
    EmptyLeft([RBRACE] + y);
    if ms == [] && ns == [] {
      SameLengthSplit([RBRACE], [RBRACE], x, y);
    } else if ms == [] {
      MembersSplit(ns, y);
      SameHead([RBRACE], Quote(ns[0].key), x, [COLON] + (CanonicalJson(ns[0].value) + MembersTail(ns, y)));
    } else if ns == [] {
      MembersSplit(ms, x);
      SameHead(Quote(ms[0].key), [RBRACE], [COLON] + (CanonicalJson(ms[0].value) + MembersTail(ms, x)), y);
    } else {
      MembersSplit(ms, x);
      MembersSplit(ns, y);
      var p, q := CanonicalJson(ms[0].value) + MembersTail(ms, x), CanonicalJson(ns[0].value) + MembersTail(ns, y);
      QuotedUnique(ms[0].key, ns[0].key, [COLON] + p, [COLON] + q);
      SameLengthSplit([COLON], [COLON], p, q);
      ValueUnique(d, ms[0].value, ns[0].value, MembersTail(ms, x), MembersTail(ns, y));
      MembersTailUnique(d, ms, ns, x, y);
    }
  }

  lemma {:induction false} MembersTailUnique(d: nat, ms: seq<Member>, ns: seq<Member>, x: Text, y: Text)
    requires ms != [] && ns != [] && MembersTail(ms, x) == MembersTail(ns, y)
    requires ms[0].key == ns[0].key && DeepEqual(ms[0].value, ns[0].value)
    requires forall i | 0 <= i < |ms| :: AllFinite(ms[i].value) && DepthAtMost(ms[i].value, d)
    requires forall i | 0 <= i < |ns| :: AllFinite(ns[i].value)
    ensures |ms| == |ns| && x == y
    ensures forall i | 0 <= i < |ms| :: ms[i].key == ns[i].key && DeepEqual(ms[i].value, ns[i].value)
    decreases d, 1 + 2 * |ms|
  {
    hide DeepEqual, AllFinite, DepthAtMost, CanonicalJson;
    assert MembersTail(ms, x)[0] == MembersTail(ns, y)[0];
    assert |ms| == 1 <==> |ns| == 1;
    if |ms| == 1 {
      SameLengthSplit([RBRACE], [RBRACE], x, y);
    } else {
      var ms', ns' := ms[1..], ns[1..];
      SameLengthSplit([COMMA], [COMMA], PrintMembers(ms') + ([RBRACE] + x), PrintMembers(ns') + ([RBRACE] + y));
      MembersUnique(d, ms', ns', x, y);
      assert forall i | 0 < i < |ms| :: ms[i] == ms'[i - 1] && ns[i] == ns'[i - 1];
    }
  }

  // ------------------------------------------------ equal values print the same

  predicate StrictlySorted(ms: seq<Member>) {
    forall i, j | 0 <= i < j < |ms| :: KeyLess(ms[i].key, ms[j].key)
  }

  lemma KeyLessTotal(a: Text, b: Text)
    ensures KeyLess(a, b) || a == b || KeyLess(b, a)
    ensures !(KeyLess(a, b) && KeyLess(b, a)) && !KeyLess(a, a)
  {
    if a != [] && b != [] && a[0] == b[0] {
      assert a == [a[0]] + a[1..] && b == [b[0]] + b[1..];
    }
  }

  lemma KeyLessTransitive(a: Text, b: Text, c: Text)
    requires KeyLess(a, b) && KeyLess(b, c)
    ensures KeyLess(a, c)
  {
  }

  lemma {:induction false} InsertSorted(m: Member, ms: seq<Member>)
    requires StrictlySorted(ms) && forall x | x in ms :: x.key != m.key
    ensures StrictlySorted(Insert(m, ms))
  {
    var r := Insert(m, ms);
    if ms == [] {
    } else if !KeyLess(ms[0].key, m.key) {
      KeyLessTotal(ms[0].key, m.key);
      assert ms[0] in ms;
      forall i, j | 0 <= i < j < |r|
        ensures KeyLess(r[i].key, r[j].key)
      {
        if i == 0 && j > 1 {
          KeyLessTransitive(m.key, ms[0].key, ms[j - 1].key);
        }
      }
    } else {
      var rest := Insert(m, ms[1..]);
      InsertSorted(m, ms[1..]);
      forall j | 0 < j < |r|
        ensures KeyLess(r[0].key, r[j].key)
      {
        assert r[j] == rest[j - 1] && rest[j - 1] in rest;
      }
      assert forall i, j | 0 < i < j < |r| :: r[i] == rest[i - 1] && r[j] == rest[j - 1];
    }
  }

  lemma {:induction false} SortSorts(ms: seq<Member>)
    requires DistinctKeys(ms)
    ensures StrictlySorted(SortMembers(ms))
  {
    if ms != [] {
      SortSorts(ms[1..]);
      InsertSorted(ms[0], SortMembers(ms[1..]));
    }
  }

  predicate HasKey(ms: seq<Member>, k: Text) {
    exists i :: 0 <= i < |ms| && ms[i].key == k
  }

  ghost predicate KeysWithin(s: seq<Member>, t: seq<Member>) {
    forall i | 0 <= i < |s| :: HasKey(t, s[i].key)
  }

  lemma SortedHeads(s: seq<Member>, t: seq<Member>)
    requires StrictlySorted(s) && StrictlySorted(t) && s != [] && t != []
    requires KeysWithin(s, t) && KeysWithin(t, s)
    ensures s[0].key == t[0].key
  {
    assert HasKey(t, s[0].key) && HasKey(s, t[0].key);
    KeyLessTotal(s[0].key, t[0].key);
  }

  lemma SortedTails(s: seq<Member>, t: seq<Member>)
    requires StrictlySorted(s) && StrictlySorted(t) && s != [] && t != []
    requires KeysWithin(s, t) && s[0].key == t[0].key
    ensures KeysWithin(s[1..], t[1..])
  {
    forall k | 0 <= k < |s| - 1
      ensures HasKey(t[1..], s[1..][k].key)
    {
      assert HasKey(t, s[k + 1].key);
      var l :| 0 <= l < |t| && t[l].key == s[k + 1].key;
      KeyLessTotal(s[0].key, s[k + 1].key);
      assert t[1..][l - 1].key == s[1..][k].key;
    }
  }

  /** A strictly sorted list is determined by its keys. */
  lemma {:induction false} SortedKeysUnique(s: seq<Member>, t: seq<Member>)
    requires StrictlySorted(s) && StrictlySorted(t) && |s| == |t|
    requires KeysWithin(s, t) && KeysWithin(t, s)
    ensures forall i | 0 <= i < |s| :: s[i].key == t[i].key
  {
    if s != [] {
      SortedHeads(s, t);
      SortedTails(s, t);
      SortedTails(t, s);
      SortedKeysUnique(s[1..], t[1..]);
      assert forall k | 0 < k < |s| :: s[k] == s[1..][k - 1] && t[k] == t[1..][k - 1];
    }
  }

  lemma SortKeepsKeys(ms: seq<Member>, k: Text)
    ensures HasKey(SortMembers(ms), k) <==> HasKey(ms, k)
  {
    var s := SortMembers(ms);
    if HasKey(ms, k) {
      var i :| 0 <= i < |ms| && ms[i].key == k;
      assert ms[i] in s;
    }
    if HasKey(s, k) {
      var i :| 0 <= i < |s| && s[i].key == k;
      assert s[i] in ms;
    }
  }

  /** Equal objects have the same keys, in the same sorted order. */
  lemma EqualObjectsSameKeys(ms: seq<Member>, ns: seq<Member>)
    requires DistinctKeys(ms) && DistinctKeys(ns) && DeepEqual(Obj(ms), Obj(ns))
    ensures forall i | 0 <= i < |ms| :: SortMembers(ms)[i].key == SortMembers(ns)[i].key
  {
    var s, t := SortMembers(ms), SortMembers(ns);
    SortSorts(ms);
    SortSorts(ns);
    assert KeysWithin(ms, ns);
    forall i | 0 <= i < |s|
      ensures HasKey(t, s[i].key)
    {
      assert HasKey(s, s[i].key);
      SortKeepsKeys(ms, s[i].key);
      SortKeepsKeys(ns, s[i].key);
    }
    forall i | 0 <= i < |t|
      ensures HasKey(s, t[i].key)
    {
      assert HasKey(t, t[i].key);
      SortKeepsKeys(ns, t[i].key);
      var j :| 0 <= j < |ns| && ns[j].key == t[i].key;
      var k := Preimage(ms, ns, j);
      assert HasKey(ms, t[i].key);
      SortKeepsKeys(ms, t[i].key);
    }
    SortedKeysUnique(s, t);
  }

  /** Equally many distinct keys, all of them found: none is left over. */
  lemma Preimage(ms: seq<Member>, ns: seq<Member>, j: nat) returns (k: nat)
    requires DistinctKeys(ms) && DistinctKeys(ns) && |ms| == |ns| && j < |ns|
    requires KeysWithin(ms, ns)
    ensures k < |ms| && ms[k].key == ns[j].key
  {
    if forall i | 0 <= i < |ms| :: ms[i].key != ns[j].key {
      var left := set i | 0 <= i < |ms| :: ms[i].key;
      var right := set i | 0 <= i < |ns| && i != j :: ns[i].key;
      KeyCount(ms, |ms|);
      KeyCountWithout(ns, j);
      forall x | x in left
        ensures x in right
      {
        var i :| 0 <= i < |ms| && ms[i].key == x;
        assert HasKey(ns, ms[i].key);
      }
      SubsetSize(left, right);
      assert false;
    }
    k :| k < |ms| && ms[k].key == ns[j].key;
  }

  lemma SubsetSize<T>(a: set<T>, b: set<T>)
    requires a <= b
    ensures |a| <= |b|
  {
    assert b == a + (b - a);
  }

  lemma {:induction false} KeyCount(ms: seq<Member>, n: nat)
    requires DistinctKeys(ms) && n <= |ms|
    ensures |set i | 0 <= i < n :: ms[i].key| == n
  {
    var s := set i | 0 <= i < n :: ms[i].key;
    if n > 0 {
      KeyCount(ms, n - 1);
      var p := set i | 0 <= i < n - 1 :: ms[i].key;
      assert s == p + {ms[n - 1].key};
    }
  }

  lemma KeyCountWithout(ns: seq<Member>, j: nat)
    requires DistinctKeys(ns) && j < |ns|
    ensures |set i | 0 <= i < |ns| && i != j :: ns[i].key| == |ns| - 1
  {
    KeyCount(ns, |ns|);
    var all := set i | 0 <= i < |ns| :: ns[i].key;
    var rest := set i | 0 <= i < |ns| && i != j :: ns[i].key;
    assert all == rest + {ns[j].key};
    assert ns[j].key !in rest;
  }

  lemma {:induction false} EqualPrintsSame(a: Json, b: Json)
    requires WellFormed(a) && WellFormed(b) && DeepEqual(a, b)
    ensures CanonicalJson(a) == CanonicalJson(b)
  {
    match a
    case Arr(xs) =>
      forall i | 0 <= i < |xs|
        ensures CanonicalJson(xs[i]) == CanonicalJson(b.items[i])
      {
        EqualPrintsSame(xs[i], b.items[i]);
      }
      assert ItemTexts(xs) == ItemTexts(b.items);
    case Obj(ms) =>
      var ns := b.members;
      var s, t := SortMembers(ms), SortMembers(ns);
      EqualObjectsSameKeys(ms, ns);
      forall i | 0 <= i < |s|
        ensures PrintMember(s[i]) == PrintMember(t[i])
      {
        assert s[i] in ms && t[i] in ns;
        var k :| 0 <= k < |ms| && ms[k] == s[i];
        var j :| 0 <= j < |ns| && ms[k].key == ns[j].key && DeepEqual(ms[k].value, ns[j].value);
        var l :| 0 <= l < |ns| && ns[l] == t[i];
        assert l == j;
        EqualPrintsSame(ms[k].value, ns[j].value);
      }
      assert MemberTexts(s) == MemberTexts(t);
      JoinMembers(s);
      JoinMembers(t);
      CanonicalObj(ms);
      CanonicalObj(ns);
    case _ =>
  }

  /** The main result for values a program can write down: texts decide equality. */
  lemma TextDecidesEquality(a: Json, b: Json)
    requires WellFormed(a) && WellFormed(b) && AllFinite(a) && AllFinite(b)
    ensures CanonicalJson(a) == CanonicalJson(b) <==> DeepEqual(a, b)
  {
    if CanonicalJson(a) == CanonicalJson(b) {
      var d := HasDepth(a);
      ValueUnique(d, a, b, [], []);
    }
    if DeepEqual(a, b) {
      EqualPrintsSame(a, b);
    }
  }

  // ------------------------------------------------------------------ infinities

  /** The value with null wherever it holds an infinity. */
  function InfinitiesAsNull(v: Json): Json {
    match v
    case Num(n) => if n.Finite? then v else Null
    case Arr(items) => Arr(seq(|items|, i requires 0 <= i < |items| => InfinitiesAsNull(items[i])))
    case Obj(ms) =>
      Obj(seq(|ms|, i requires 0 <= i < |ms| => Member(ms[i].key, InfinitiesAsNull(ms[i].value))))
    case _ => v
  }

  function MemberInfinities(ms: seq<Member>): seq<Member> {
    seq(|ms|, i requires 0 <= i < |ms| => Member(ms[i].key, InfinitiesAsNull(ms[i].value)))
  }

  lemma {:induction false} InsertCommutes(m: Member, ms: seq<Member>)
    ensures MemberInfinities(Insert(m, ms)) == Insert(Member(m.key, InfinitiesAsNull(m.value)), MemberInfinities(ms))
  {
    if ms != [] && KeyLess(ms[0].key, m.key) {
      InsertCommutes(m, ms[1..]);
      assert MemberInfinities(ms)[1..] == MemberInfinities(ms[1..]);
      assert MemberInfinities(Insert(m, ms))[1..] == MemberInfinities(Insert(m, ms[1..]));
    }
  }

  lemma {:induction false} SortCommutes(ms: seq<Member>)
    ensures MemberInfinities(SortMembers(ms)) == SortMembers(MemberInfinities(ms))
  {
    if ms != [] {
      SortCommutes(ms[1..]);
      InsertCommutes(ms[0], SortMembers(ms[1..]));
      assert MemberInfinities(ms)[1..] == MemberInfinities(ms[1..]);
    }
  }

  lemma {:induction false} InfinitiesPrintAsNull(v: Json)
    ensures CanonicalJson(InfinitiesAsNull(v)) == CanonicalJson(v)
  {
    match v
    case Arr(xs) =>
      var ys := InfinitiesAsNull(v).items;
      forall i | 0 <= i < |xs|
        ensures CanonicalJson(ys[i]) == CanonicalJson(xs[i])
      {
        InfinitiesPrintAsNull(xs[i]);
      }
      assert ItemTexts(xs) == ItemTexts(ys);
    case Obj(ms) =>
      var s := SortMembers(ms);
      SortCommutes(ms);
      var t := MemberInfinities(s);
      forall i | 0 <= i < |s|
        ensures PrintMember(t[i]) == PrintMember(s[i])
      {
        assert s[i] in ms;
        InfinitiesPrintAsNull(s[i].value);
      }
      assert MemberTexts(s) == MemberTexts(t);
      JoinMembers(s);
      JoinMembers(t);
      CanonicalObj(ms);
      CanonicalObj(MemberInfinities(ms));
      assert InfinitiesAsNull(v) == Obj(MemberInfinities(ms));
    case _ =>
  }

  lemma {:induction false} InfinitiesGone(v: Json)
    requires WellFormed(v)
    ensures WellFormed(InfinitiesAsNull(v)) && AllFinite(InfinitiesAsNull(v))
    ensures AllFinite(v) ==> InfinitiesAsNull(v) == v
  {
    match v
    case Arr(xs) =>
      forall i | 0 <= i < |xs|
        ensures WellFormed(InfinitiesAsNull(xs[i])) && AllFinite(InfinitiesAsNull(xs[i]))
        ensures AllFinite(v) ==> InfinitiesAsNull(xs[i]) == xs[i]
      {
        InfinitiesGone(xs[i]);
      }
    case Obj(ms) =>
      forall i | 0 <= i < |ms|
        ensures WellFormed(InfinitiesAsNull(ms[i].value)) && AllFinite(InfinitiesAsNull(ms[i].value))
        ensures AllFinite(v) ==> InfinitiesAsNull(ms[i].value) == ms[i].value
      {
        InfinitiesGone(ms[i].value);
      }
    case _ =>
  }

  /** For every two values: they print the same exactly when they are equal after
      every infinity is read as null. */
  lemma TextDecidesEqualityUpToInfinities(a: Json, b: Json)
    requires WellFormed(a) && WellFormed(b)
    ensures CanonicalJson(a) == CanonicalJson(b) <==> DeepEqual(InfinitiesAsNull(a), InfinitiesAsNull(b))
  {
    InfinitiesGone(a);
    InfinitiesGone(b);
    InfinitiesPrintAsNull(a);
    InfinitiesPrintAsNull(b);
    TextDecidesEquality(InfinitiesAsNull(a), InfinitiesAsNull(b));
  }

  /** Without the finiteness condition the text does not decide equality: an overflowing
      numeral and null print alike. */
  lemma OverflowPrintsAsNull()
    ensures CanonicalJson(Num(Infinite(false))) == CanonicalJson(Null)
    ensures !DeepEqual(Num(Infinite(false)), Null)
  {
  }
}
