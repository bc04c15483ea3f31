/** What the keywords of a supported JSON Schema mean (`extensions/_shared/structured-output.ts`). */
module SchemaMeaning {
  import opened Json
  import opened CanonicalEquality
  import opened Wrappers

  function Ascii(s: string): Text {
    seq(|s|, i requires 0 <= i < |s| => s[i] as int % 0x80)
  }

  const TWO_64 := 0x1_0000_0000_0000_0000
  const TWO_256 := TWO_64 * TWO_64 * TWO_64 * TWO_64
  const TWO_1024 := TWO_256 * TWO_256 * TWO_256 * TWO_256

  /** The number one, in units of the least subnormal double. */
  const UNITS_PER_ONE := TWO_1024 * 0x4_0000_0000_0000

  /** An array length or string length as a number. */
  function Count(n: nat): Number {
    Finite(n * UNITS_PER_ONE)
  }

  predicate Less(a: Number, b: Number) {
    match (a, b)
    case (Finite(x), Finite(y)) => x < y
    case (Infinite(neg), Finite(_)) => neg
    case (Finite(_), Infinite(neg)) => !neg
    case (Infinite(p), Infinite(q)) => p && !q
  }

  predicate IsInteger(n: Number) {
    n.Finite? && n.units % UNITS_PER_ONE == 0
  }

  // ----------------------------------------------------------- schema access

  function Find(ms: seq<Member>, k: Text): (r: Option<Json>)
    ensures r.Some? ==> exists i :: 0 <= i < |ms| && ms[i].key == k && r.value == ms[i].value
    ensures r.None? ==> forall i | 0 <= i < |ms| :: ms[i].key != k
  {
    if ms == [] then None else if ms[0].key == k then Some(ms[0].value) else Find(ms[1..], k)
  }

  /** The keyword `k` of a schema; its value is properly contained in the schema. */
  function Keyword(s: Json, k: string): (r: Option<Json>)
    ensures r.Some? ==> r.value < s
  {
    if s.Obj? then Find(s.members, Ascii(k)) else None
  }

  function NumberKeyword(s: Json, k: string): Option<Number> {
    var v := Keyword(s, k);
    if v.Some? && v.value.Num? then Some(v.value.n) else None
  }

  function ArrayKeyword(s: Json, k: string): (r: Option<seq<Json>>)
    ensures r.Some? ==> forall i | 0 <= i < |r.value| :: r.value[i] < s
  {
    var v := Keyword(s, k);
    if v.Some? && v.value.Arr? then Some(v.value.items) else None
  }

  function PropertyMembers(s: Json): (r: seq<Member>)
    ensures forall i | 0 <= i < |r| :: r[i].value < s
  {
    var v := Keyword(s, "properties");
    if v.Some? && v.value.Obj? then v.value.members else []
  }

  function PropertySchema(s: Json, k: Text): (r: Option<Json>)
    ensures r.Some? ==> r.value < s
  {
    Find(PropertyMembers(s), k)
  }

  function Types(s: Json): seq<Json> {
    var v := Keyword(s, "type");
    if v.None? then [] else if v.value.Str? then [v.value] else if v.value.Arr? then v.value.items else []
  }

  predicate MatchesType(v: Json, t: Json) {
    t.Str? &&
    if t.s == Ascii("null") then v.Null?
    else if t.s == Ascii("boolean") then v.Bool?
    else if t.s == Ascii("object") then v.Obj?
    else if t.s == Ascii("array") then v.Arr?
    else if t.s == Ascii("number") then v.Num? && v.n.Finite?
    else if t.s == Ascii("integer") then v.Num? && IsInteger(v.n)
    else if t.s == Ascii("string") then v.Str?
    else false
  }

  /** `Array.from(s).length`: code points, a lone surrogate counting as one. */
  function CodePoints(s: Text): nat {
    if s == [] then 0 else 1 + CodePoints(s[Width(s)..])
  }

  // ----------------------------------------------------------------- meaning

  /** Equality of JSON values, or equality when infinities, which no JSON text denotes, are
      read as null, as they are printed. */
  datatype Sameness = Exactly | AsPrinted

  ghost predicate SameValue(a: Json, b: Json, same: Sameness) {
    match same
    case Exactly => DeepEqual(a, b)
    case AsPrinted => DeepEqual(InfinitiesAsNull(a), InfinitiesAsNull(b))
  }

  predicate AtLeast(n: Number, bound: Option<Number>) {
    bound.Some? ==> !Less(n, bound.value)
  }

  predicate AtMost(n: Number, bound: Option<Number>) {
    bound.Some? ==> !Less(bound.value, n)
  }

  /** Sections 6.1.1 to 6.1.3 of JSON Schema Validation, draft 2020-12. */
  ghost predicate TypeOk(v: Json, s: Json) {
    Types(s) == [] || exists i :: 0 <= i < |Types(s)| && MatchesType(v, Types(s)[i])
  }

  ghost predicate EnumOk(v: Json, s: Json, same: Sameness) {
    var e := ArrayKeyword(s, "enum");
    e.Some? ==> exists i :: 0 <= i < |e.value| && SameValue(e.value[i], v, same)
  }

  ghost predicate ConstOk(v: Json, s: Json, same: Sameness) {
    var c := Keyword(s, "const");
    c.Some? ==> SameValue(c.value, v, same)
  }

  /** Sections 6.2 and 6.3. */
  predicate NumberOk(v: Json, s: Json) {
    v.Num? ==>
      && AtLeast(v.n, NumberKeyword(s, "minimum")) && AtMost(v.n, NumberKeyword(s, "maximum"))
      && (var low := NumberKeyword(s, "exclusiveMinimum"); low.Some? ==> Less(low.value, v.n))
      && (var high := NumberKeyword(s, "exclusiveMaximum"); high.Some? ==> Less(v.n, high.value))
  }

  predicate StringOk(v: Json, s: Json) {
    v.Str? ==>
      && AtLeast(Count(CodePoints(v.s)), NumberKeyword(s, "minLength"))
      && AtMost(Count(CodePoints(v.s)), NumberKeyword(s, "maxLength"))
  }

  ghost predicate AllDifferent(xs: seq<Json>, same: Sameness) {
    forall i, j | 0 <= i < j < |xs| :: !SameValue(xs[i], xs[j], same)
  }

  /** Section 6.4. */
  ghost predicate ArrayOk(v: Json, s: Json, same: Sameness) {
    v.Arr? ==>
      && AtLeast(Count(|v.items|), NumberKeyword(s, "minItems"))
      && AtMost(Count(|v.items|), NumberKeyword(s, "maxItems"))
      && (Keyword(s, "uniqueItems") == Some(Bool(true)) ==> AllDifferent(v.items, same))
  }

  function Required(s: Json): seq<Json> {
    var r := ArrayKeyword(s, "required");
    if r.Some? then r.value else []
  }

  predicate Has(v: Json, name: Json) {
    v.Obj? && name.Str? && Find(v.members, name.s).Some?
  }

  /** Section 6.5. */
  predicate ObjectOk(v: Json, s: Json) {
    v.Obj? ==>
      && AtLeast(Count(|v.members|), NumberKeyword(s, "minProperties"))
      && AtMost(Count(|v.members|), NumberKeyword(s, "maxProperties"))
      && forall i | 0 <= i < |Required(s)| :: Has(v, Required(s)[i])
  }

  /** The schema a member's value must satisfy, if any: section 10.3.2 of JSON Schema Core. */
  function MemberSchema(s: Json, k: Text): (r: Option<Json>)
    ensures r.Some? ==> r.value < s
  {
    if PropertySchema(s, k).Some? then PropertySchema(s, k)
    else
      var more := Keyword(s, "additionalProperties");
      if more.Some? && (more.value.Bool? || more.value.Obj?) then more else None
  }

  /** When a value satisfies a schema. */
  ghost predicate Satisfies(v: Json, s: Json, same: Sameness)
    decreases s, 2
  {
    match s
    case Bool(b) => b
    case Obj(_) =>
      TypeOk(v, s) && OwnKeywordsOk(v, s, same) &&
      AllOfOk(v, s, same) && AnyOfOk(v, s, same) && OneOfOk(v, s, same) && ItemsOk(v, s, same) && MembersOk(v, s, same)
    case _ => true
  }

  ghost predicate OwnKeywordsOk(v: Json, s: Json, same: Sameness) {
    EnumOk(v, s, same) && ConstOk(v, s, same) && StringOk(v, s) && NumberOk(v, s) && ArrayOk(v, s, same) &&
      ObjectOk(v, s)
  }

  /** Section 10.2.1 of JSON Schema Core: all, some, or exactly one of the subschemas. */
  ghost predicate AllOfOk(v: Json, s: Json, same: Sameness)
    decreases s, 0
  {
    var all := ArrayKeyword(s, "allOf");
    all.Some? ==> forall i | 0 <= i < |all.value| :: Satisfies(v, all.value[i], same)
  }

  ghost predicate AnyOfOk(v: Json, s: Json, same: Sameness)
    decreases s, 0
  {
    var any := ArrayKeyword(s, "anyOf");
    any.Some? ==> exists i :: 0 <= i < |any.value| && Satisfies(v, any.value[i], same)
  }

  /** The branch `i` of `oneOf` is the only one satisfied. */
  ghost predicate OnlyBranch(v: Json, s: Json, i: int, same: Sameness)
    decreases s, 0
  {
    var one := ArrayKeyword(s, "oneOf");
    one.Some? && 0 <= i < |one.value| && Satisfies(v, one.value[i], same) &&
    forall j | 0 <= j < |one.value| && j != i :: !Satisfies(v, one.value[j], same)
  }

  ghost predicate OneOfOk(v: Json, s: Json, same: Sameness)
    decreases s, 1
  {
    ArrayKeyword(s, "oneOf").Some? ==> exists i :: OnlyBranch(v, s, i, same)
  }

  /** Section 10.3.1: every item satisfies the items schema. */
  ghost predicate ItemsOk(v: Json, s: Json, same: Sameness)
    decreases s, 0
  {
    var items := Keyword(s, "items");
    v.Arr? && items.Some? ==> forall i | 0 <= i < |v.items| :: Satisfies(v.items[i], items.value, same)
  }

  ghost predicate MemberOk(s: Json, m: Member, same: Sameness)
    decreases s, 0
  {
    var sub := MemberSchema(s, m.key);
    sub.Some? ==> Satisfies(m.value, sub.value, same)
  }

  ghost predicate MembersOk(v: Json, s: Json, same: Sameness)
    decreases s, 1
  {
    v.Obj? ==> forall i | 0 <= i < |v.members| :: MemberOk(s, v.members[i], same)
  }

  /** On values without infinities, sameness is equality of JSON values. */
  lemma SameValueIsEquality(a: Json, b: Json)
    requires WellFormed(a) && WellFormed(b) && AllFinite(a) && AllFinite(b)
    ensures SameValue(a, b, AsPrinted) <==> SameValue(a, b, Exactly)
  {
    InfinitiesGone(a);
    InfinitiesGone(b);
  }

  /** Without infinities in the value and in the schema, the meaning is that of plain
      equality, at every depth. */
  lemma {:induction false} FiniteMeaning(v: Json, s: Json)
    requires WellFormed(v) && WellFormed(s) && AllFinite(v) && AllFinite(s)
    ensures Satisfies(v, s, AsPrinted) <==> Satisfies(v, s, Exactly)
    decreases s, 1
  {
    hide WellFormed, AllFinite, OwnKeywordsOk, AllOfOk, AnyOfOk, OneOfOk, ItemsOk, MembersOk, TypeOk;
    if s.Obj? {
      FiniteOwn(v, s);
      FiniteBranches(v, s, "allOf");
      FiniteBranches(v, s, "anyOf");
      FiniteBranches(v, s, "oneOf");
      FiniteCombinators(v, s);
      FiniteItems(v, s);
      FiniteMembers(v, s);
    }
  }

  /** With infinities it is not: such a value passes an enumeration of null alone. */
  lemma InfinityPassesAsNull() returns (v: Json, s: Json)
    ensures WellFormed(v) && WellFormed(s)
    ensures EnumOk(v, s, AsPrinted) && !EnumOk(v, s, Exactly) && !Satisfies(v, s, Exactly)
  {
    hide Ascii;
    v, s := Num(Infinite(false)), Obj([Member(Ascii("enum"), Arr([Null]))]);
    assert ArrayKeyword(s, "enum") == Some([Null]);
    assert SameValue([Null][0], v, AsPrinted) && !SameValue(Null, v, Exactly);
  }

  lemma FiniteKeyword(s: Json, k: string)
    requires WellFormed(s) && AllFinite(s) && Keyword(s, k).Some?
    ensures WellFormed(Keyword(s, k).value) && AllFinite(Keyword(s, k).value)
  {
  }

  lemma FiniteElements(s: Json, k: string)
    requires WellFormed(s) && AllFinite(s) && ArrayKeyword(s, k).Some?
    ensures forall x | x in ArrayKeyword(s, k).value :: WellFormed(x) && AllFinite(x)
  {
    FiniteKeyword(s, k);
  }

  lemma FiniteOwn(v: Json, s: Json)
    requires WellFormed(v) && WellFormed(s) && AllFinite(v) && AllFinite(s)
    ensures OwnKeywordsOk(v, s, AsPrinted) <==> OwnKeywordsOk(v, s, Exactly)
  {
    hide SameValue, StringOk, NumberOk, ObjectOk, ArrayOk, Ascii, Find;
    FiniteEnum(v, s);
    FiniteConst(v, s);
    FiniteArray(v, s);
  }

  lemma FiniteEnum(v: Json, s: Json)
    requires WellFormed(v) && WellFormed(s) && AllFinite(v) && AllFinite(s)
    ensures EnumOk(v, s, AsPrinted) <==> EnumOk(v, s, Exactly)
  {
    hide SameValue, WellFormed, AllFinite, ArrayKeyword;
    var e := ArrayKeyword(s, "enum");
    if e.Some? {
      FiniteElements(s, "enum");
      forall i | 0 <= i < |e.value|
        ensures SameValue(e.value[i], v, AsPrinted) <==> SameValue(e.value[i], v, Exactly)
      {
        SameValueIsEquality(e.value[i], v);
      }
    }
  }

  lemma FiniteConst(v: Json, s: Json)
    requires WellFormed(v) && WellFormed(s) && AllFinite(v) && AllFinite(s)
    ensures ConstOk(v, s, AsPrinted) <==> ConstOk(v, s, Exactly)
  {
    hide SameValue, WellFormed, AllFinite, Keyword;
    if Keyword(s, "const").Some? {
      FiniteKeyword(s, "const");
      SameValueIsEquality(Keyword(s, "const").value, v);
    }
  }

  lemma FiniteArray(v: Json, s: Json)
    requires WellFormed(v) && AllFinite(v)
    ensures ArrayOk(v, s, AsPrinted) <==> ArrayOk(v, s, Exactly)
  {
    hide SameValue;
    if v.Arr? {
      forall i, j | 0 <= i < j < |v.items|
        ensures SameValue(v.items[i], v.items[j], AsPrinted) <==> SameValue(v.items[i], v.items[j], Exactly)
      {
        SameValueIsEquality(v.items[i], v.items[j]);
      }
    }
  }

  ghost predicate BranchesAgree(v: Json, s: Json, k: string) {
    var b := ArrayKeyword(s, k);
    b.Some? ==> forall i | 0 <= i < |b.value| ::
      Satisfies(v, b.value[i], AsPrinted) <==> Satisfies(v, b.value[i], Exactly)
  }

  lemma {:induction false} FiniteBranches(v: Json, s: Json, k: string)
    requires WellFormed(v) && WellFormed(s) && AllFinite(v) && AllFinite(s)
    ensures BranchesAgree(v, s, k)
    decreases s, 0
  {
    hide Satisfies, WellFormed, AllFinite;
    var b := ArrayKeyword(s, k);
    if b.Some? {
      FiniteElements(s, k);
      forall i | 0 <= i < |b.value|
        ensures Satisfies(v, b.value[i], AsPrinted) <==> Satisfies(v, b.value[i], Exactly)
      {
        FiniteMeaning(v, b.value[i]);
      }
    }
  }

  lemma FiniteCombinators(v: Json, s: Json)
    requires BranchesAgree(v, s, "allOf") && BranchesAgree(v, s, "anyOf") && BranchesAgree(v, s, "oneOf")
    ensures AllOfOk(v, s, AsPrinted) <==> AllOfOk(v, s, Exactly)
    ensures AnyOfOk(v, s, AsPrinted) <==> AnyOfOk(v, s, Exactly)
    ensures OneOfOk(v, s, AsPrinted) <==> OneOfOk(v, s, Exactly)
  {
    hide Satisfies, ArrayKeyword;
    var one := ArrayKeyword(s, "oneOf");
    if one.Some? {
      forall i ensures OnlyBranch(v, s, i, AsPrinted) <==> OnlyBranch(v, s, i, Exactly) {
      }
    }
  }

  lemma {:induction false} FiniteItems(v: Json, s: Json)
    requires WellFormed(v) && WellFormed(s) && AllFinite(v) && AllFinite(s)
    ensures ItemsOk(v, s, AsPrinted) <==> ItemsOk(v, s, Exactly)
    decreases s, 0
  {
    hide Satisfies;
    var items := Keyword(s, "items");
    if v.Arr? && items.Some? {
      FiniteKeyword(s, "items");
      forall i | 0 <= i < |v.items|
        ensures Satisfies(v.items[i], items.value, AsPrinted) <==> Satisfies(v.items[i], items.value, Exactly)
      {
        FiniteMeaning(v.items[i], items.value);
      }
    }
  }

  lemma FiniteMemberSchema(s: Json, k: Text)
    requires WellFormed(s) && AllFinite(s) && MemberSchema(s, k).Some?
    ensures WellFormed(MemberSchema(s, k).value) && AllFinite(MemberSchema(s, k).value)
  {
    hide WellFormed, AllFinite;
    if Keyword(s, "properties").Some? {
      FiniteKeyword(s, "properties");
    }
    if Keyword(s, "additionalProperties").Some? {
      FiniteKeyword(s, "additionalProperties");
    }
    if PropertySchema(s, k).Some? {
      FiniteFound(Keyword(s, "properties").value, k);
    }
  }

  lemma FiniteFound(v: Json, k: Text)
    requires WellFormed(v) && AllFinite(v) && v.Obj? && Find(v.members, k).Some?
    ensures WellFormed(Find(v.members, k).value) && AllFinite(Find(v.members, k).value)
  {
  }

  lemma {:induction false} FiniteMembers(v: Json, s: Json)
    requires WellFormed(v) && WellFormed(s) && AllFinite(v) && AllFinite(s)
    ensures MembersOk(v, s, AsPrinted) <==> MembersOk(v, s, Exactly)
    decreases s, 0
  {
    hide Satisfies, MemberSchema;
    if v.Obj? {
      forall i | 0 <= i < |v.members|
        ensures MemberOk(s, v.members[i], AsPrinted) <==> MemberOk(s, v.members[i], Exactly)
      {
        var m := v.members[i];
        var sub := MemberSchema(s, m.key);
        if sub.Some? {
          FiniteMemberSchema(s, m.key);
          FiniteMeaning(m.value, sub.value);
        }
      }
    }
  }

  // --------------------------------------------------------- supported schemas

  const SUPPORTED_KEYS: seq<string> :=
    ["$schema", "title", "description", "default", "examples", "type", "enum", "const", "properties",
     "required", "additionalProperties", "items", "allOf", "anyOf", "oneOf", "minLength", "maxLength",
     "minimum", "maximum", "exclusiveMinimum", "exclusiveMaximum", "minItems", "maxItems", "uniqueItems",
     "minProperties", "maxProperties"]

  const JSON_TYPES: seq<string> := ["null", "boolean", "object", "array", "number", "integer", "string"]

  predicate KnownKey(k: Text) {
    exists i :: 0 <= i < |SUPPORTED_KEYS| && k == Ascii(SUPPORTED_KEYS[i])
  }

  predicate KnownType(t: Json) {
    t.Str? && exists i :: 0 <= i < |JSON_TYPES| && t.s == Ascii(JSON_TYPES[i])
  }

  predicate IntegerKeywordOk(s: Json, k: string) {
    var v := Keyword(s, k);
    v.Some? ==> v.value.Num? && IsInteger(v.value.n) && v.value.n.units >= 0
  }

  predicate NumberKeywordOk(s: Json, k: string) {
    var v := Keyword(s, k);
    v.Some? ==> v.value.Num? && v.value.n.Finite?
  }

  predicate CombinatorOk(s: Json, k: string) {
    var v := Keyword(s, k);
    v.Some? ==> v.value.Arr? && v.value.items != []
  }

  /** The checks on one schema object that do not look into its subschemas. */
  predicate NodeOk(s: Json) {
    && s.Obj?
    && (forall i | 0 <= i < |s.members| :: KnownKey(s.members[i].key))
    && (Keyword(s, "type").Some? ==> Types(s) != [])
    && (forall i | 0 <= i < |Types(s)| :: KnownType(Types(s)[i]))
    && (var e := Keyword(s, "enum"); e.Some? ==> e.value.Arr?)
    && (var r := Keyword(s, "required");
        r.Some? ==> r.value.Arr? && forall i | 0 <= i < |r.value.items| :: r.value.items[i].Str?)
    && IntegerKeywordOk(s, "minLength") && IntegerKeywordOk(s, "maxLength")
    && IntegerKeywordOk(s, "minItems") && IntegerKeywordOk(s, "maxItems")
    && IntegerKeywordOk(s, "minProperties") && IntegerKeywordOk(s, "maxProperties")
    && NumberKeywordOk(s, "minimum") && NumberKeywordOk(s, "maximum")
    && NumberKeywordOk(s, "exclusiveMinimum") && NumberKeywordOk(s, "exclusiveMaximum")
    && (var u := Keyword(s, "uniqueItems"); u.Some? ==> u.value.Bool?)
    && (var p := Keyword(s, "properties"); p.Some? ==> p.value.Obj?)
    && CombinatorOk(s, "allOf") && CombinatorOk(s, "anyOf") && CombinatorOk(s, "oneOf")
  }

  function PropertySchemas(s: Json): (r: seq<Json>)
    ensures forall i | 0 <= i < |r| :: r[i] < s
  {
    var ms := PropertyMembers(s);
    seq(|ms|, i requires 0 <= i < |ms| => ms[i].value)
  }

  function OneSchema(v: Option<Json>): seq<Json> {
    if v.Some? then [v.value] else []
  }

  function SchemaList(s: Json, k: string): (r: seq<Json>)
    ensures forall i | 0 <= i < |r| :: r[i] < s
  {
    var v := ArrayKeyword(s, k);
    if v.Some? then v.value else []
  }

  function AdditionalSchema(s: Json): (r: seq<Json>)
    ensures forall i | 0 <= i < |r| :: r[i] < s
  {
    var more := Keyword(s, "additionalProperties");
    if more.Some? && !more.value.Bool? then [more.value] else []
  }

  function ItemsSchema(s: Json): (r: seq<Json>)
    ensures forall i | 0 <= i < |r| :: r[i] < s
  {
    OneSchema(Keyword(s, "items"))
  }

  function Then(s: Json, a: seq<Json>, b: seq<Json>): (r: seq<Json>)
    requires forall i | 0 <= i < |a| :: a[i] < s
    requires forall i | 0 <= i < |b| :: b[i] < s
    ensures forall i | 0 <= i < |r| :: r[i] < s
    ensures r == a + b
  {
    a + b
  }

  /** The subschemas, in the order in which they are visited. */
  function Subschemas(s: Json): (r: seq<Json>)
    ensures forall i | 0 <= i < |r| :: r[i] < s
  {
    Then(s, PropertySchemas(s), Then(s, AdditionalSchema(s), Then(s, ItemsSchema(s),
      Then(s, SchemaList(s, "allOf"), Then(s, SchemaList(s, "anyOf"), SchemaList(s, "oneOf"))))))
  }

  /** Every node of a schema is a boolean or an object with well-typed known keywords. */
  ghost predicate SupportedSchema(s: Json)
    decreases s
  {
    s.Bool? || (NodeOk(s) && forall i | 0 <= i < |Subschemas(s)| :: SupportedSchema(Subschemas(s)[i]))
  }

  ghost predicate HeightAtMost(s: Json, h: int)
    decreases s
  {
    h >= 0 && (s.Bool? || forall i | 0 <= i < |Subschemas(s)| :: HeightAtMost(Subschemas(s)[i], h - 1))
  }

  ghost function NodeCount(s: Json): nat
    decreases s, 1
  {
    if s.Bool? then 1 else
      var subs := Subschemas(s);
      1 + NodeCounts(s, subs, |subs|)
  }

  ghost function NodeCounts(s: Json, subs: seq<Json>, n: nat): nat
    requires n <= |subs| && forall i | 0 <= i < |subs| :: subs[i] < s
    decreases s, 0, n
  {
    if n == 0 then 0 else NodeCounts(s, subs, n - 1) + NodeCount(subs[n - 1])
  }
}
