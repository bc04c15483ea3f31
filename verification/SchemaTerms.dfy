/** What the terms of the schema keywords mean (`extensions/_shared/structured-output.ts`). */
module SchemaTerms {
  // Types, numbers and lengths, in their own terms: the checker and the meaning of the
  // keywords share them.

  import opened Json
  import opened SchemaMeaning
  import opened Wrappers

  // ---------------------------------------------------------------------------- numbers

  /** The order of the numbers: that of the integers on finite ones, with one infinity below
      and one above all of them. */
  lemma LessIsTheOrder(a: Number, b: Number)
    ensures a.Finite? && b.Finite? ==> (Less(a, b) <==> a.units < b.units)
    ensures a.Finite? && b.Infinite? ==> (Less(a, b) <==> !b.negative) && (Less(b, a) <==> b.negative)
    ensures a.Infinite? && b.Infinite? ==> (Less(a, b) <==> a.negative && !b.negative)
    ensures !(Less(a, b) && Less(b, a)) && (Less(a, b) || Less(b, a) || a == b)
  {
  }

  /** Inclusive bounds include the bound, exclusive ones do not. */
  lemma BoundsMeaning(n: Number, v: Json, s: Json)
    requires v == Num(n)
    ensures
      var low, high := NumberKeyword(s, "minimum"), NumberKeyword(s, "maximum");
      var above, below := NumberKeyword(s, "exclusiveMinimum"), NumberKeyword(s, "exclusiveMaximum");
      NumberOk(v, s) <==>
        && (low.Some? ==> low.value == n || Less(low.value, n))
        && (high.Some? ==> n == high.value || Less(n, high.value))
        && (above.Some? ==> Less(above.value, n)) && (below.Some? ==> Less(n, below.value))
  {
    hide NumberKeyword;
  }

  /** A length limit is a number of things: a finite bound of so many ones. */
  lemma LengthsMeaning(n: nat, bound: nat)
    ensures AtLeast(Count(n), Some(Count(bound))) <==> n >= bound
    ensures AtMost(Count(n), Some(Count(bound))) <==> n <= bound
    ensures IsInteger(Count(n))
  {
  }

  // ------------------------------------------------------------------------------ types

  const PRIMITIVES: seq<string> := ["null", "boolean", "object", "array", "number", "string"]

  /** The one primitive type of a value; an infinity has none. */
  function TypeName(v: Json): Option<string> {
    match v
    case Null => Some("null")
    case Bool(_) => Some("boolean")
    case Obj(_) => Some("object")
    case Arr(_) => Some("array")
    case Str(_) => Some("string")
    case Num(Finite(_)) => Some("number")
    case Num(Infinite(_)) => None
  }

  lemma AsciiIsInjective(a: string, b: string)
    requires (forall i | 0 <= i < |a| :: a[i] < 128 as char) && (forall i | 0 <= i < |b| :: b[i] < 128 as char)
    requires Ascii(a) == Ascii(b)
    ensures a == b
  {
    assert |Ascii(a)| == |a| && |Ascii(b)| == |b|;
    forall i | 0 <= i < |a| ensures a[i] == b[i] {
      assert Ascii(a)[i] == Ascii(b)[i];
    }
  }

  lemma TypeNamesDiffer()
    ensures forall s, t | s in JSON_TYPES && t in JSON_TYPES && s != t :: Ascii(s) != Ascii(t)
  {
    hide Ascii;
    forall s, t | s in JSON_TYPES && t in JSON_TYPES && s != t ensures Ascii(s) != Ascii(t) {
      if Ascii(s) == Ascii(t) {
        AsciiIsInjective(s, t);
      }
    }
  }

  /** Every value has its own type and no other, but for integers, which are numbers, too. */
  lemma TypesMeaning(v: Json, t: string)
    requires t in JSON_TYPES
    ensures MatchesType(v, Str(Ascii(t))) <==>
      TypeName(v) == Some(t) || (t == "integer" && exists k: int :: v == Num(Finite(k * UNITS_PER_ONE)))
  {
    hide Ascii;
    TypeNamesDiffer();
    if v.Num? && v.n.Finite? && v.n.units % UNITS_PER_ONE == 0 {
      Divides(v.n.units, UNITS_PER_ONE);
      assert v == Num(Finite(v.n.units / UNITS_PER_ONE * UNITS_PER_ONE));
    }
    if k: int :| v == Num(Finite(k * UNITS_PER_ONE)) {
      Multiple(k, UNITS_PER_ONE);
    }
  }

  lemma Divides(n: int, d: int)
    requires d > 0 && n % d == 0
    ensures n / d * d == n
  {
  }

  lemma Multiple(k: int, d: int)
    requires d > 0
    ensures k * d % d == 0
  {
    var n := k * d;
    var q, r := n / d, n % d;
    assert n == d * q + r && 0 <= r < d;
    Closest(k - q, d, r);
  }

  lemma Closest(m: int, d: int, r: int)
    requires 0 <= r < d && m * d == r
    ensures r == 0
  {
    AtLeastOnce(m, d);
  }

  lemma AtLeastOnce(m: int, d: int)
    requires d > 0
    ensures m >= 1 ==> m * d >= d
    ensures m < 0 ==> m * d < 0
  {
  }

  // ---------------------------------------------------------------------------- lengths

  /** A code point, or a surrogate on its own. */
  type Point = p: int | 0 <= p <= 0x10FFFF

  function Units(p: Point): Text {
    if p < 0x10000 then [p] else [0xD800 + (p - 0x10000) / 0x400, 0xDC00 + (p - 0x10000) % 0x400]
  }

  function Written(points: seq<Point>): Text {
    if points == [] then [] else Units(points[0]) + Written(points[1..])
  }

  /** No two of them would be read as one. */
  predicate Apart(points: seq<Point>) {
    forall i | 0 <= i < |points| - 1 :: !(0xD800 <= points[i] < 0xDC00 && 0xDC00 <= points[i + 1] < 0xE000)
  }

  /** The length of a text is the number of its code points. */
  lemma {:induction false} LengthIsPoints(points: seq<Point>)
    requires Apart(points)
    ensures CodePoints(Written(points)) == |points|
  {
    if points != [] {
      var first, rest := Units(points[0]), Written(points[1..]);
      LengthIsPoints(points[1..]);
      assert Written(points) == first + rest;
      if |points| > 1 {
        FirstUnit(points[1..]);
      }
      assert (first + rest)[|first|..] == rest;
      if points[0] < 0x10000 {
        assert !StartsWithPair(first + rest);
      }
    }
  }

  lemma FirstUnit(points: seq<Point>)
    requires points != []
    ensures Written(points) != []
    ensures IsLowSurrogate(Written(points)[0]) <==> 0xDC00 <= points[0] < 0xE000
  {
  }

  /** And every text is written by code points. */
  lemma {:induction false} EveryTextIsWritten(s: Text) returns (points: seq<Point>)
    ensures Apart(points) && Written(points) == s
  {
    points := [];
    if s != [] {
      var n := Width(s);
      var rest := EveryTextIsWritten(s[n..]);
      var high: int := s[0];
      var low: int := if n == 2 then s[1] else 0;
      var p: Point := if n == 2 then 0x10000 + (high - 0xD800) * 0x400 + (low - 0xDC00) else high;
      points := [p] + rest;
      assert points[1..] == rest;
      assert Units(p) == s[..n];
      assert s == s[..n] + s[n..];
      if rest != [] {
        FirstUnit(rest);
      }
      forall i | 0 <= i < |points| - 1
        ensures !(0xD800 <= points[i] < 0xDC00 && 0xDC00 <= points[i + 1] < 0xE000)
      {
        if i > 0 {
          assert points[i] == rest[i - 1] && points[i + 1] == rest[i];
        }
      }
    }
  }

  // ---------------------------------------------------------------------------- members

  /** A required name is there exactly when some member has it. */
  lemma RequiredMeaning(v: Json, name: Text)
    ensures Has(v, Str(name)) <==> v.Obj? && exists m | m in v.members :: m.key == name
  {
    if v.Obj? {
      var found := Find(v.members, name);
      assert found.None? ==> forall m | m in v.members :: m.key != name;
    }
  }

  /** The value of a keyword is that of the member with its name; with distinct keys there
      is one at most. */
  lemma KeywordMeaning(s: Json, k: string, value: Json)
    requires WellFormed(s)
    ensures Keyword(s, k) == Some(value) <==> s.Obj? && Member(Ascii(k), value) in s.members
  {
    hide Ascii;
    if s.Obj? {
      FoundMember(s.members, Ascii(k), value);
    }
  }

  lemma {:induction false} FoundMember(ms: seq<Member>, k: Text, value: Json)
    requires DistinctKeys(ms)
    ensures Find(ms, k) == Some(value) <==> Member(k, value) in ms
  {
    if ms != [] {
      var first, rest := ms[0], ms[1..];
      assert ms == [first] + rest;
      FoundMember(rest, k, value);
      assert forall i | 0 <= i < |rest| :: rest[i] == ms[i + 1];
    }
  }
}
