/** The bounded JSON-Schema validator of `extensions/_shared/structured-output.ts`. */
module StructuredOutput {
  // `validateValue`, `validateSchemaNode` and `parseAndValidateStructuredOutput`, which push
  // into a shared, bounded error list and stop early when it is full.

  import opened Json
  import opened CanonicalEquality
  import opened SchemaMeaning
  import opened Wrappers

  const MAX_SCHEMA_BYTES := 64 * 1024
  const MAX_SCHEMA_DEPTH := 24
  const MAX_SCHEMA_NODES := 2048
  const MAX_VALIDATION_ERRORS := 20

  /** Where in the value, and which keyword complains. */
  datatype Problem = Problem(path: Text, keyword: string)

  class ErrorList {
    var list: seq<Problem>

    constructor ()
      ensures list == []
    {
      list := [];
    }

    method Add(path: Text, keyword: string)
      modifies this
      ensures list == if |old(list)| < MAX_VALIDATION_ERRORS then old(list) + [Problem(path, keyword)] else old(list)
    {
      if |list| < MAX_VALIDATION_ERRORS {
        list := list + [Problem(path, keyword)];
      }
    }
  }

  /** What a check may do to the list: old problems stay in front, the list never
      grows past its bound, and, unless it was full already, it stays as it was
      exactly when the check succeeds. */
  ghost predicate Reports(before: seq<Problem>, after: seq<Problem>, ok: bool) {
    && before <= after
    && (|after| <= MAX_VALIDATION_ERRORS || after == before)
    && (if |before| < MAX_VALIDATION_ERRORS then (after == before <==> ok) else after == before)
  }

  lemma ReportsInTurn(a: seq<Problem>, b: seq<Problem>, c: seq<Problem>, p: bool, q: bool)
    requires Reports(a, b, p) && Reports(b, c, q)
    ensures Reports(a, c, p && q)
  {
  }

  /** A full list can leave out the rest of the checks. */
  lemma FullListDecides(a: seq<Problem>, b: seq<Problem>, p: bool, q: bool)
    requires Reports(a, b, p) && |b| >= MAX_VALIDATION_ERRORS && (q ==> p)
    ensures Reports(a, b, q)
  {
  }

  predicate SameText(a: Json, b: Json) {
    CanonicalJson(a) == CanonicalJson(b)
  }

  lemma SameTextIsSameValue(a: Json, b: Json)
    requires WellFormed(a) && WellFormed(b)
    ensures SameText(a, b) <==> SameValue(a, b, AsPrinted)
  {
    TextDecidesEqualityUpToInfinities(a, b);
  }

  lemma KeywordWellFormed(s: Json, k: string)
    requires WellFormed(s)
    ensures Keyword(s, k).Some? ==> WellFormed(Keyword(s, k).value)
  {
  }

  lemma ElementsWellFormed(s: Json, k: string)
    requires WellFormed(s)
    ensures ArrayKeyword(s, k).Some? ==>
              forall i | 0 <= i < |ArrayKeyword(s, k).value| :: WellFormed(ArrayKeyword(s, k).value[i])
  {
    KeywordWellFormed(s, k);
  }

  lemma MemberSchemaWellFormed(s: Json, k: Text)
    requires WellFormed(s)
    ensures MemberSchema(s, k).Some? ==> WellFormed(MemberSchema(s, k).value)
  {
    KeywordWellFormed(s, "properties");
    KeywordWellFormed(s, "additionalProperties");
  }

  // ------------------------------------------------------------------ keywords

  method CheckType(value: Json, schema: Json, path: Text, errors: ErrorList) returns (ok: bool)
    modifies errors
    ensures ok <==> TypeOk(value, schema)
    ensures Reports(old(errors.list), errors.list, ok)
  {
    var types := Types(schema);
    ok := types == [] || exists i :: 0 <= i < |types| && MatchesType(value, types[i]);
    if !ok {
      errors.Add(path, "type");
    }
  }

  method CheckEnum(value: Json, schema: Json, path: Text, errors: ErrorList)
    requires WellFormed(value) && WellFormed(schema)
    modifies errors
    ensures Reports(old(errors.list), errors.list, EnumOk(value, schema, AsPrinted))
  {
    var e := ArrayKeyword(schema, "enum");
    ElementsWellFormed(schema, "enum");
    if e.Some? {
      forall i | 0 <= i < |e.value|
        ensures SameText(e.value[i], value) <==> SameValue(e.value[i], value, AsPrinted)
      {
        SameTextIsSameValue(e.value[i], value);
      }
      if !exists i :: 0 <= i < |e.value| && SameText(e.value[i], value) {
        errors.Add(path, "enum");
      }
    }
  }

  method CheckConst(value: Json, schema: Json, path: Text, errors: ErrorList)
    requires WellFormed(value) && WellFormed(schema)
    modifies errors
    ensures Reports(old(errors.list), errors.list, ConstOk(value, schema, AsPrinted))
  {
    var c := Keyword(schema, "const");
    KeywordWellFormed(schema, "const");
    if c.Some? {
      SameTextIsSameValue(c.value, value);
      if !SameText(c.value, value) {
        errors.Add(path, "const");
      }
    }
  }

  method CheckAtLeast(n: Number, schema: Json, keyword: string, path: Text, errors: ErrorList)
    modifies errors
    ensures Reports(old(errors.list), errors.list, AtLeast(n, NumberKeyword(schema, keyword)))
  {
    var bound := NumberKeyword(schema, keyword);
    if bound.Some? && Less(n, bound.value) {
      errors.Add(path, keyword);
    }
  }

  method CheckAtMost(n: Number, schema: Json, keyword: string, path: Text, errors: ErrorList)
    modifies errors
    ensures Reports(old(errors.list), errors.list, AtMost(n, NumberKeyword(schema, keyword)))
  {
    var bound := NumberKeyword(schema, keyword);
    if bound.Some? && Less(bound.value, n) {
      errors.Add(path, keyword);
    }
  }

  method CheckString(value: Json, schema: Json, path: Text, errors: ErrorList)
    modifies errors
    ensures Reports(old(errors.list), errors.list, StringOk(value, schema))
  {
    if value.Str? {
      var length := Count(CodePoints(value.s));
      CheckAtLeast(length, schema, "minLength", path, errors);
      ghost var mid := errors.list;
      CheckAtMost(length, schema, "maxLength", path, errors);
      ReportsInTurn(old(errors.list), mid, errors.list,
        AtLeast(length, NumberKeyword(schema, "minLength")), AtMost(length, NumberKeyword(schema, "maxLength")));
    }
  }

  method CheckNumber(value: Json, schema: Json, path: Text, errors: ErrorList)
    modifies errors
    ensures Reports(old(errors.list), errors.list, NumberOk(value, schema))
  {
    if value.Num? {
      CheckAtLeast(value.n, schema, "minimum", path, errors);
      CheckAtMost(value.n, schema, "maximum", path, errors);
      var low := NumberKeyword(schema, "exclusiveMinimum");
      if low.Some? && !Less(low.value, value.n) {
        errors.Add(path, "exclusiveMinimum");
      }
      var high := NumberKeyword(schema, "exclusiveMaximum");
      if high.Some? && !Less(value.n, high.value) {
        errors.Add(path, "exclusiveMaximum");
      }
    }
  }

  method CheckArray(value: Json, schema: Json, path: Text, errors: ErrorList)
    requires WellFormed(value)
    modifies errors
    ensures Reports(old(errors.list), errors.list, ArrayOk(value, schema, AsPrinted))
  {
    if value.Arr? {
      var xs := value.items;
      CheckAtLeast(Count(|xs|), schema, "minItems", path, errors);
      CheckAtMost(Count(|xs|), schema, "maxItems", path, errors);
      if Keyword(schema, "uniqueItems") == Some(Bool(true)) {
        DistinctTexts(xs);
        if |Texts(xs, |xs|)| != |xs| {
          errors.Add(path, "uniqueItems");
        }
      }
    }
  }

  /** `new Set(value.map(canonicalJson))`, over the first `n` items. */
  function Texts(xs: seq<Json>, n: nat): set<Text>
    requires n <= |xs|
  {
    set i | 0 <= i < n :: CanonicalJson(xs[i])
  }

  ghost predicate TextsDiffer(xs: seq<Json>, n: nat)
    requires n <= |xs|
  {
    forall i, j | 0 <= i < j < n :: !SameText(xs[i], xs[j])
  }

  /** The set of printed items is as large as the array exactly when no two are equal. */
  lemma DistinctTexts(xs: seq<Json>)
    requires forall i | 0 <= i < |xs| :: WellFormed(xs[i])
    ensures |Texts(xs, |xs|)| == |xs| <==> AllDifferent(xs, AsPrinted)
  {
    forall i, j | 0 <= i < j < |xs|
      ensures SameText(xs[i], xs[j]) <==> SameValue(xs[i], xs[j], AsPrinted)
    {
      SameTextIsSameValue(xs[i], xs[j]);
    }
    TextCount(xs, |xs|);
  }

  lemma {:induction false} TextCount(xs: seq<Json>, n: nat)
    requires n <= |xs|
    ensures |Texts(xs, n)| <= n
    ensures |Texts(xs, n)| == n <==> TextsDiffer(xs, n)
  {
    if n > 0 {
      TextCount(xs, n - 1);
      var t := CanonicalJson(xs[n - 1]);
      assert Texts(xs, n) == Texts(xs, n - 1) + {t};
      if t in Texts(xs, n - 1) {
        var i :| 0 <= i < n - 1 && CanonicalJson(xs[i]) == t;
        assert SameText(xs[i], xs[n - 1]);
        assert Texts(xs, n) == Texts(xs, n - 1);
      } else {
        NewTextDiffers(xs, n);
      }
    }
  }

  lemma NewTextDiffers(xs: seq<Json>, n: nat)
    requires 0 < n <= |xs| && CanonicalJson(xs[n - 1]) !in Texts(xs, n - 1)
    ensures TextsDiffer(xs, n) <==> TextsDiffer(xs, n - 1)
  {
    assert forall i | 0 <= i < n - 1 :: CanonicalJson(xs[i]) in Texts(xs, n - 1);
  }

  predicate RequiredAreNames(s: Json) {
    forall i | 0 <= i < |Required(s)| :: Required(s)[i].Str?
  }

  method CheckRequired(value: Json, schema: Json, path: Text, errors: ErrorList)
    requires value.Obj? && RequiredAreNames(schema)
    modifies errors
    ensures Reports(old(errors.list), errors.list,
                    forall i | 0 <= i < |Required(schema)| :: Has(value, Required(schema)[i]))
  {
    hide Find, Ascii, Has;
    var required := Required(schema);
    var k := 0;
    while k < |required|
      invariant 0 <= k <= |required|
      invariant Reports(old(errors.list), errors.list, forall i | 0 <= i < k :: Has(value, required[i]))
    {
      if !Has(value, required[k]) {
        errors.Add(path + Ascii(".") + required[k].s, "required");
        if |errors.list| >= MAX_VALIDATION_ERRORS {
          return;
        }
      }
      k := k + 1;
    }
  }

  method CheckObject(value: Json, schema: Json, path: Text, errors: ErrorList)
    requires RequiredAreNames(schema)
    modifies errors
    ensures Reports(old(errors.list), errors.list, ObjectOk(value, schema))
  {
    if value.Obj? {
      CheckAtLeast(Count(|value.members|), schema, "minProperties", path, errors);
      CheckAtMost(Count(|value.members|), schema, "maxProperties", path, errors);
      CheckRequired(value, schema, path, errors);
    }
  }

  // ------------------------------------------------------------- subschemas

  lemma ElementSupported(s: Json, k: string, i: nat)
    requires SupportedSchema(s) && s.Obj? && (k == "allOf" || k == "anyOf" || k == "oneOf")
    requires ArrayKeyword(s, k).Some? && i < |ArrayKeyword(s, k).value|
    ensures SupportedSchema(ArrayKeyword(s, k).value[i])
  {
    SubschemaMember(s, SchemaList(s, k)[i]);
  }

  lemma SubschemaMember(s: Json, x: Json)
    requires SupportedSchema(s) && s.Obj?
    requires x in PropertySchemas(s) || x in AdditionalSchema(s) || x in ItemsSchema(s) ||
             x in SchemaList(s, "allOf") || x in SchemaList(s, "anyOf") || x in SchemaList(s, "oneOf")
    ensures SupportedSchema(x)
  {
    assert x in Subschemas(s);
  }

  lemma MemberSchemaSupported(s: Json, k: Text)
    requires SupportedSchema(s) && s.Obj?
    ensures MemberSchema(s, k).Some? ==> SupportedSchema(MemberSchema(s, k).value)
  {
    var p := PropertySchema(s, k);
    if p.Some? {
      var i :| 0 <= i < |PropertyMembers(s)| && PropertyMembers(s)[i].value == p.value;
      assert PropertySchemas(s)[i] == p.value;
      SubschemaMember(s, p.value);
    } else {
      var more := Keyword(s, "additionalProperties");
      if more.Some? && !more.value.Bool? {
        assert AdditionalSchema(s)[0] == more.value;
        SubschemaMember(s, more.value);
      }
    }
  }

  lemma ItemsSupported(s: Json)
    requires SupportedSchema(s) && s.Obj? && Keyword(s, "items").Some?
    ensures SupportedSchema(Keyword(s, "items").value)
  {
    assert ItemsSchema(s)[0] == Keyword(s, "items").value;
    SubschemaMember(s, Keyword(s, "items").value);
  }

  /** One error list per branch of a combinator. */
  method Outcomes(value: Json, schema: Json, keyword: string, path: Text) returns (outcomes: seq<seq<Problem>>)
    requires WellFormed(value) && WellFormed(schema) && SupportedSchema(schema) && schema.Obj?
    requires keyword == "allOf" || keyword == "anyOf" || keyword == "oneOf"
    requires ArrayKeyword(schema, keyword).Some?
    ensures Agree(value, ArrayKeyword(schema, keyword).value, outcomes)
    decreases schema, 0
  {
    hide Satisfies, SupportedSchema, WellFormed, NodeOk, Find, Ascii;
    var children := ArrayKeyword(schema, keyword).value;
    ElementsWellFormed(schema, keyword);
    outcomes := [];
    var k := 0;
    while k < |children|
      invariant 0 <= k <= |children| && |outcomes| == k
      invariant forall i | 0 <= i < k :: outcomes[i] == [] <==> Satisfies(value, children[i], AsPrinted)
    {
      var branch := new ErrorList();
      ElementSupported(schema, keyword, k);
      ValidateValue(value, children[k], path, branch);
      outcomes := outcomes + [branch.list];
      k := k + 1;
    }
  }

  /** Push as much of every branch's errors as still fits. */
  method CheckAllOf(value: Json, schema: Json, path: Text, errors: ErrorList)
    requires WellFormed(value) && WellFormed(schema) && SupportedSchema(schema) && schema.Obj?
    requires |errors.list| <= MAX_VALIDATION_ERRORS
    modifies errors
    ensures Reports(old(errors.list), errors.list, AllOfOk(value, schema, AsPrinted))
    decreases schema, 1
  {
    hide Satisfies, SupportedSchema, WellFormed, NodeOk, Find, Ascii;
    if ArrayKeyword(schema, "allOf").Some? {
      var outcomes := Outcomes(value, schema, "allOf", path);
      var k := 0;
      while k < |outcomes|
        invariant 0 <= k <= |outcomes|
        invariant |errors.list| <= MAX_VALIDATION_ERRORS
        invariant Reports(old(errors.list), errors.list, forall i | 0 <= i < k :: outcomes[i] == [])
      {
        var room := MAX_VALIDATION_ERRORS - |errors.list|;
        var taken := if |outcomes[k]| <= room then outcomes[k] else outcomes[k][..room];
        ghost var before := errors.list;
        errors.list := errors.list + taken;
        ReportsInTurn(old(errors.list), before, errors.list,
          forall i | 0 <= i < k :: outcomes[i] == [], outcomes[k] == []);
        k := k + 1;
      }
    }
  }

  function Successes(outcomes: seq<seq<Problem>>, n: nat): set<int>
    requires n <= |outcomes|
  {
    set i | 0 <= i < n && outcomes[i] == []
  }

  /** `outcomes.filter(...).length` */
  method CountSuccesses(outcomes: seq<seq<Problem>>) returns (matches: nat)
    ensures matches == |Successes(outcomes, |outcomes|)|
  {
    matches := 0;
    var k := 0;
    while k < |outcomes|
      invariant 0 <= k <= |outcomes|
      invariant matches == |Successes(outcomes, k)|
    {
      if outcomes[k] == [] {
        assert Successes(outcomes, k + 1) == Successes(outcomes, k) + {k};
        matches := matches + 1;
      } else {
        assert Successes(outcomes, k + 1) == Successes(outcomes, k);
      }
      k := k + 1;
    }
  }

  lemma SomeElement<T>(s: set<T>) returns (i: T)
    requires s != {}
    ensures i in s
  {
    i :| i in s;
  }

  lemma OneElement(s: set<int>)
    ensures |s| == 1 <==> exists i :: i in s && forall j | j in s :: j == i
  {
    if |s| == 1 {
      var i := SomeElement(s);
      assert |s - {i}| == 0;
      assert forall j | j in s :: j == i || j in s - {i};
    }
    if exists i :: i in s && forall j | j in s :: j == i {
      var i :| i in s && forall j | j in s :: j == i;
      assert s == {i};
    }
  }

  method CheckAnyOf(value: Json, schema: Json, path: Text, errors: ErrorList)
    requires WellFormed(value) && WellFormed(schema) && SupportedSchema(schema) && schema.Obj?
    modifies errors
    ensures Reports(old(errors.list), errors.list, AnyOfOk(value, schema, AsPrinted))
    decreases schema, 1
  {
    hide Satisfies, SupportedSchema, WellFormed, NodeOk, Find, Ascii;
    if ArrayKeyword(schema, "anyOf").Some? {
      var outcomes := Outcomes(value, schema, "anyOf", path);
      var matches := CountSuccesses(outcomes);
      SomeSuccess(value, ArrayKeyword(schema, "anyOf").value, outcomes);
      if matches == 0 {
        errors.Add(path, "anyOf");
      }
    }
  }

  method CheckOneOf(value: Json, schema: Json, path: Text, errors: ErrorList)
    requires WellFormed(value) && WellFormed(schema) && SupportedSchema(schema) && schema.Obj?
    modifies errors
    ensures Reports(old(errors.list), errors.list, OneOfOk(value, schema, AsPrinted))
    decreases schema, 1
  {
    hide Satisfies, SupportedSchema, WellFormed, NodeOk, Find, Ascii, Agree, Successes;
    if ArrayKeyword(schema, "oneOf").Some? {
      var outcomes := Outcomes(value, schema, "oneOf", path);
      var matches := CountSuccesses(outcomes);
      ExactlyOne(value, schema, outcomes);
      if matches != 1 {
        errors.Add(path, "oneOf");
      }
    }
  }

  ghost predicate Agree(v: Json, children: seq<Json>, outcomes: seq<seq<Problem>>) {
    |children| == |outcomes| && forall i | 0 <= i < |outcomes| :: outcomes[i] == [] <==>
      Satisfies(v, children[i], AsPrinted)
  }

  lemma SomeSuccess(v: Json, children: seq<Json>, outcomes: seq<seq<Problem>>)
    requires Agree(v, children, outcomes)
    ensures |Successes(outcomes, |outcomes|)| == 0 <==>
              !exists i :: 0 <= i < |children| && Satisfies(v, children[i], AsPrinted)
  {
    hide Satisfies;
    var s := Successes(outcomes, |outcomes|);
    if i :| 0 <= i < |children| && Satisfies(v, children[i], AsPrinted) {
      assert i in s;
    } else {
      assert forall i | 0 <= i < |outcomes| :: outcomes[i] != [];
      assert s == {};
    }
  }

  lemma ExactlyOne(v: Json, s: Json, outcomes: seq<seq<Problem>>)
    requires ArrayKeyword(s, "oneOf").Some? && Agree(v, ArrayKeyword(s, "oneOf").value, outcomes)
    ensures |Successes(outcomes, |outcomes|)| == 1 <==> OneOfOk(v, s, AsPrinted)
  {
    hide Satisfies, Ascii, Find;
    var children, good := ArrayKeyword(s, "oneOf").value, Successes(outcomes, |outcomes|);
    OneElement(good);
    if |good| == 1 {
      var i :| i in good && forall j | j in good :: j == i;
      forall j | 0 <= j < |children| && j != i
        ensures !Satisfies(v, children[j], AsPrinted)
      {
        assert j !in good;
        assert outcomes[j] != [];
      }
      assert outcomes[i] == [];
      assert OnlyBranch(v, s, i, AsPrinted);
    }
    if i :| OnlyBranch(v, s, i, AsPrinted) {
      forall j | j in good
        ensures j == i
      {
        assert outcomes[j] == [];
      }
      assert i in good;
    }
  }

  lemma PartsWellFormed(v: Json)
    requires WellFormed(v)
    ensures v.Arr? ==> forall i | 0 <= i < |v.items| :: WellFormed(v.items[i])
    ensures v.Obj? ==> forall i | 0 <= i < |v.members| :: WellFormed(v.members[i].value)
  {
  }

  lemma BooleanSchema(v: Json, b: bool)
    ensures Satisfies(v, Bool(b), AsPrinted) <==> b
  {
  }

  lemma SupportedShape(s: Json)
    requires SupportedSchema(s)
    ensures (s.Bool? || s.Obj?) && RequiredAreNames(s)
  {
    hide WellFormed, Satisfies;
  }

  method CheckItems(value: Json, schema: Json, path: Text, errors: ErrorList)
    requires WellFormed(value) && WellFormed(schema) && SupportedSchema(schema) && schema.Obj?
    modifies errors
    ensures Reports(old(errors.list), errors.list, ItemsOk(value, schema, AsPrinted))
    decreases schema, 0
  {
    hide Satisfies, SupportedSchema, WellFormed, NodeOk, Find, Ascii;
    var items := Keyword(schema, "items");
    if value.Arr? && items.Some? {
      PartsWellFormed(value);
      ItemsSupported(schema);
      KeywordWellFormed(schema, "items");
      var k := 0;
      while k < |value.items| && |errors.list| < MAX_VALIDATION_ERRORS
        invariant 0 <= k <= |value.items|
        invariant Reports(old(errors.list), errors.list,
                    forall i | 0 <= i < k :: Satisfies(value.items[i], items.value, AsPrinted))
      {
        ghost var before := errors.list;
        ValidateValue(value.items[k], items.value, path + Ascii("[") + Digits(k) + Ascii("]"), errors);
        ReportsInTurn(old(errors.list), before, errors.list,
          forall i | 0 <= i < k :: Satisfies(value.items[i], items.value, AsPrinted),
          Satisfies(value.items[k], items.value, AsPrinted));
        k := k + 1;
      }
      if k < |value.items| {
        FullListDecides(old(errors.list), errors.list,
          forall i | 0 <= i < k :: Satisfies(value.items[i], items.value, AsPrinted),
          ItemsOk(value, schema, AsPrinted));
      }
    }
  }

  method CheckMember(m: Member, schema: Json, path: Text, errors: ErrorList)
    requires WellFormed(m.value) && WellFormed(schema) && SupportedSchema(schema) && schema.Obj?
    modifies errors
    ensures Reports(old(errors.list), errors.list, MemberOk(schema, m, AsPrinted))
    decreases schema, 0
  {
    hide Satisfies, SupportedSchema, WellFormed, NodeOk, Find, Ascii;
    var property := PropertySchema(schema, m.key);
    var more := Keyword(schema, "additionalProperties");
    var here := path + Ascii(".") + m.key;
    MemberSchemaWellFormed(schema, m.key);
    MemberSchemaSupported(schema, m.key);
    BooleanSchema(m.value, false);
    if property.Some? {
      ValidateValue(m.value, property.value, here, errors);
    } else if more == Some(Bool(false)) {
      errors.Add(here, "additionalProperties");
    } else if more.Some? && (more.value.Obj? || more.value.Bool?) {
      ValidateValue(m.value, more.value, here, errors);
    }
  }

  method CheckMembers(value: Json, schema: Json, path: Text, errors: ErrorList)
    requires WellFormed(value) && WellFormed(schema) && SupportedSchema(schema) && schema.Obj?
    modifies errors
    ensures Reports(old(errors.list), errors.list, MembersOk(value, schema, AsPrinted))
    decreases schema, 1
  {
    hide Satisfies, SupportedSchema, WellFormed, NodeOk, Find, Ascii;
    if value.Obj? {
      PartsWellFormed(value);
      var k := 0;
      while k < |value.members|
        invariant 0 <= k <= |value.members|
        invariant Reports(old(errors.list), errors.list,
                    forall i | 0 <= i < k :: MemberOk(schema, value.members[i], AsPrinted))
      {
        if |errors.list| >= MAX_VALIDATION_ERRORS {
          FullListDecides(old(errors.list), errors.list,
            forall i | 0 <= i < k :: MemberOk(schema, value.members[i], AsPrinted),
            MembersOk(value, schema, AsPrinted));
          return;
        }
        ghost var before := errors.list;
        CheckMember(value.members[k], schema, path, errors);
        ReportsInTurn(old(errors.list), before, errors.list,
          forall i | 0 <= i < k :: MemberOk(schema, value.members[i], AsPrinted),
          MemberOk(schema, value.members[k], AsPrinted));
        k := k + 1;
      }
    }
  }

  /** The three combinators in turn. */
  method CheckCombinators(value: Json, schema: Json, path: Text, errors: ErrorList)
    requires WellFormed(value) && WellFormed(schema) && SupportedSchema(schema) && schema.Obj?
    requires |errors.list| <= MAX_VALIDATION_ERRORS
    modifies errors
    ensures Reports(old(errors.list), errors.list,
                    AllOfOk(value, schema, AsPrinted) && AnyOfOk(value, schema, AsPrinted) &&
                    OneOfOk(value, schema, AsPrinted))
    decreases schema, 2
  {
    hide Satisfies, SupportedSchema, WellFormed, NodeOk, Find, Ascii;
    CheckAllOf(value, schema, path, errors);
    CheckAnyOf(value, schema, path, errors);
    CheckOneOf(value, schema, path, errors);
  }

  /** The error list stays as it was exactly when the value satisfies the schema. */
  method ValidateValue(value: Json, schema: Json, path: Text, errors: ErrorList)
    requires WellFormed(value) && WellFormed(schema) && SupportedSchema(schema)
    modifies errors
    ensures Reports(old(errors.list), errors.list, Satisfies(value, schema, AsPrinted))
    decreases schema, 3
  {
    hide SupportedSchema, WellFormed, NodeOk, Find, Ascii, TypeOk, EnumOk, ConstOk, NumberOk, StringOk, ArrayOk,
      ObjectOk, AllOfOk, AnyOfOk, OneOfOk, ItemsOk, MembersOk;
    SupportedShape(schema);
    if |errors.list| >= MAX_VALIDATION_ERRORS || schema == Bool(true) {
      return;
    }
    if schema == Bool(false) {
      errors.Add(path, "schema");
      return;
    }
    var typed := CheckType(value, schema, path, errors);
    if !typed {
      return;
    }
    ghost var l0 := errors.list;
    CheckEnum(value, schema, path, errors);
    ghost var l1 := errors.list;
    CheckConst(value, schema, path, errors);
    ghost var l2 := errors.list;
    CheckCombinators(value, schema, path, errors);
    ghost var l3 := errors.list;
    CheckString(value, schema, path, errors);
    ghost var l4 := errors.list;
    CheckNumber(value, schema, path, errors);
    ghost var l5 := errors.list;
    CheckArray(value, schema, path, errors);
    ghost var l6 := errors.list;
    CheckItems(value, schema, path, errors);
    ghost var l7 := errors.list;
    CheckObject(value, schema, path, errors);
    ghost var l8 := errors.list;
    CheckMembers(value, schema, path, errors);
  }

  // ------------------------------------------------------------------ schemas

  class Counter {
    var nodes: nat

    constructor ()
      ensures nodes == 0
    {
      nodes := 0;
    }
  }

  ghost predicate FitsSchemaLimits(s: Json, depth: nat, nodes: nat) {
    HeightAtMost(s, MAX_SCHEMA_DEPTH - depth) && nodes + NodeCount(s) <= MAX_SCHEMA_NODES
  }

  lemma {:induction false} NodeCountsGrow(s: Json, subs: seq<Json>, m: nat, n: nat)
    requires m <= n <= |subs| && forall i | 0 <= i < |subs| :: subs[i] < s
    ensures NodeCounts(s, subs, m) <= NodeCounts(s, subs, n)
  {
    if m < n {
      NodeCountsGrow(s, subs, m, n - 1);
    }
  }

  lemma {:induction false} CountedSoFar(s: Json, k: nat)
    requires !s.Bool? && k < |Subschemas(s)|
    ensures 1 + NodeCounts(s, Subschemas(s), k) + NodeCount(Subschemas(s)[k]) <= NodeCount(s)
  {
    hide Subschemas;
    NodeCountsGrow(s, Subschemas(s), k + 1, |Subschemas(s)|);
  }

  const INTEGER_KEYWORDS: seq<string> :=
    ["minLength", "maxLength", "minItems", "maxItems", "minProperties", "maxProperties"]

  const NUMBER_KEYWORDS: seq<string> := ["minimum", "maximum", "exclusiveMinimum", "exclusiveMaximum"]

  const COMBINATORS: seq<string> := ["allOf", "anyOf", "oneOf"]

  method HasText(texts: seq<string>, t: Text) returns (found: bool)
    ensures found <==> exists i :: 0 <= i < |texts| && t == Ascii(texts[i])
  {
    hide Ascii;
    for i := 0 to |texts|
      invariant forall k | 0 <= k < i :: t != Ascii(texts[k])
    {
      if t == Ascii(texts[i]) {
        return true;
      }
    }
    return false;
  }

  method CheckKeys(schema: Json) returns (ok: bool)
    requires schema.Obj?
    ensures ok <==> forall i | 0 <= i < |schema.members| :: KnownKey(schema.members[i].key)
  {
    hide KnownKey;
    for i := 0 to |schema.members|
      invariant forall k | 0 <= k < i :: KnownKey(schema.members[k].key)
    {
      var known := HasText(SUPPORTED_KEYS, schema.members[i].key);
      KeyIsKnown(schema.members[i].key);
      if !known {
        return false;
      }
    }
    return true;
  }

  lemma KeyIsKnown(k: Text)
    ensures KnownKey(k) <==> exists i :: 0 <= i < |SUPPORTED_KEYS| && k == Ascii(SUPPORTED_KEYS[i])
  {
    hide Ascii;
  }

  method CheckTypes(schema: Json) returns (ok: bool)
    requires schema.Obj?
    ensures ok <==>
      && (Keyword(schema, "type").Some? ==> Types(schema) != [])
      && forall i | 0 <= i < |Types(schema)| :: KnownType(Types(schema)[i])
  {
    hide Find, Ascii, KnownType;
    var given := Keyword(schema, "type");
    var types: seq<Json> := [];
    if given.Some? && given.value.Str? {
      types := [given.value];
    } else if given.Some? && given.value.Arr? {
      types := given.value.items;
    }
    if given.Some? && types == [] {
      return false;
    }
    for i := 0 to |types|
      invariant forall k | 0 <= k < i :: KnownType(types[k])
    {
      TypeIsKnown(types[i]);
      if !types[i].Str? {
        return false;
      }
      var known := HasText(JSON_TYPES, types[i].s);
      if !known {
        return false;
      }
    }
    return true;
  }

  lemma TypeIsKnown(t: Json)
    ensures KnownType(t) <==> t.Str? && exists i :: 0 <= i < |JSON_TYPES| && t.s == Ascii(JSON_TYPES[i])
  {
    hide Ascii;
  }

  /** `enum`, `required`, `uniqueItems` and `properties`, as far as they are there. */
  method CheckShapes(schema: Json) returns (ok: bool)
    requires schema.Obj?
    ensures ok <==>
      && (var e := Keyword(schema, "enum"); e.Some? ==> e.value.Arr?)
      && (var r := Keyword(schema, "required");
          r.Some? ==> r.value.Arr? && forall i | 0 <= i < |r.value.items| :: r.value.items[i].Str?)
      && (var u := Keyword(schema, "uniqueItems"); u.Some? ==> u.value.Bool?)
      && (var p := Keyword(schema, "properties"); p.Some? ==> p.value.Obj?)
  {
    hide Find, Ascii;
    var allowed := Keyword(schema, "enum");
    if allowed.Some? && !allowed.value.Arr? {
      return false;
    }
    var required := Keyword(schema, "required");
    if required.Some? {
      if !required.value.Arr? {
        return false;
      }
      for i := 0 to |required.value.items|
        invariant forall k | 0 <= k < i :: required.value.items[k].Str?
      {
        if !required.value.items[i].Str? {
          return false;
        }
      }
    }
    var unique := Keyword(schema, "uniqueItems");
    if unique.Some? && !unique.value.Bool? {
      return false;
    }
    var properties := Keyword(schema, "properties");
    return properties.None? || properties.value.Obj?;
  }

  method CheckIntegers(schema: Json) returns (ok: bool)
    requires schema.Obj?
    ensures ok <==> forall i | 0 <= i < |INTEGER_KEYWORDS| :: IntegerKeywordOk(schema, INTEGER_KEYWORDS[i])
  {
    hide Find, Ascii;
    for i := 0 to |INTEGER_KEYWORDS|
      invariant forall k | 0 <= k < i :: IntegerKeywordOk(schema, INTEGER_KEYWORDS[k])
    {
      var given := Keyword(schema, INTEGER_KEYWORDS[i]);
      if given.Some? && (!given.value.Num? || !IsInteger(given.value.n) || given.value.n.units < 0) {
        assert !IntegerKeywordOk(schema, INTEGER_KEYWORDS[i]);
        return false;
      }
    }
    return true;
  }

  method CheckNumbers(schema: Json) returns (ok: bool)
    requires schema.Obj?
    ensures ok <==> forall i | 0 <= i < |NUMBER_KEYWORDS| :: NumberKeywordOk(schema, NUMBER_KEYWORDS[i])
  {
    hide Find, Ascii;
    for i := 0 to |NUMBER_KEYWORDS|
      invariant forall k | 0 <= k < i :: NumberKeywordOk(schema, NUMBER_KEYWORDS[k])
    {
      var given := Keyword(schema, NUMBER_KEYWORDS[i]);
      if given.Some? && (!given.value.Num? || given.value.n.Infinite?) {
        assert !NumberKeywordOk(schema, NUMBER_KEYWORDS[i]);
        return false;
      }
    }
    return true;
  }

  method CheckBranches(schema: Json) returns (ok: bool)
    requires schema.Obj?
    ensures ok <==> forall i | 0 <= i < |COMBINATORS| :: CombinatorOk(schema, COMBINATORS[i])
  {
    hide Find, Ascii;
    for i := 0 to |COMBINATORS|
      invariant forall k | 0 <= k < i :: CombinatorOk(schema, COMBINATORS[k])
    {
      var given := Keyword(schema, COMBINATORS[i]);
      if given.Some? && (!given.value.Arr? || given.value.items == []) {
        assert !CombinatorOk(schema, COMBINATORS[i]);
        return false;
      }
    }
    return true;
  }

  /** The checks on one schema object that do not look into its subschemas. */
  method CheckNode(schema: Json) returns (ok: bool)
    ensures ok <==> NodeOk(schema)
  {
    hide Keyword, KnownKey, KnownType, Types, IntegerKeywordOk, NumberKeywordOk, CombinatorOk;
    if !schema.Obj? {
      return false;
    }
    var keys := CheckKeys(schema);
    var types := CheckTypes(schema);
    var shapes := CheckShapes(schema);
    var integers := CheckIntegers(schema);
    var numbers := CheckNumbers(schema);
    var branches := CheckBranches(schema);
    SixIntegers(schema);
    FourNumbers(schema);
    ThreeBranches(schema);
    return keys && types && shapes && integers && numbers && branches;
  }

  lemma SixIntegers(s: Json)
    ensures (forall i | 0 <= i < |INTEGER_KEYWORDS| :: IntegerKeywordOk(s, INTEGER_KEYWORDS[i])) <==>
      IntegerKeywordOk(s, "minLength") && IntegerKeywordOk(s, "maxLength") &&
      IntegerKeywordOk(s, "minItems") && IntegerKeywordOk(s, "maxItems") &&
      IntegerKeywordOk(s, "minProperties") && IntegerKeywordOk(s, "maxProperties")
  {
    hide IntegerKeywordOk;
    assert INTEGER_KEYWORDS[0] == "minLength" && INTEGER_KEYWORDS[1] == "maxLength";
    assert INTEGER_KEYWORDS[2] == "minItems" && INTEGER_KEYWORDS[3] == "maxItems";
    assert INTEGER_KEYWORDS[4] == "minProperties" && INTEGER_KEYWORDS[5] == "maxProperties";
  }

  lemma FourNumbers(s: Json)
    ensures (forall i | 0 <= i < |NUMBER_KEYWORDS| :: NumberKeywordOk(s, NUMBER_KEYWORDS[i])) <==>
      NumberKeywordOk(s, "minimum") && NumberKeywordOk(s, "maximum") &&
      NumberKeywordOk(s, "exclusiveMinimum") && NumberKeywordOk(s, "exclusiveMaximum")
  {
    hide NumberKeywordOk;
    assert NUMBER_KEYWORDS[0] == "minimum" && NUMBER_KEYWORDS[1] == "maximum";
    assert NUMBER_KEYWORDS[2] == "exclusiveMinimum" && NUMBER_KEYWORDS[3] == "exclusiveMaximum";
  }

  lemma ThreeBranches(s: Json)
    ensures (forall i | 0 <= i < |COMBINATORS| :: CombinatorOk(s, COMBINATORS[i])) <==>
      CombinatorOk(s, "allOf") && CombinatorOk(s, "anyOf") && CombinatorOk(s, "oneOf")
  {
    hide CombinatorOk;
    assert COMBINATORS[0] == "allOf" && COMBINATORS[1] == "anyOf" && COMBINATORS[2] == "oneOf";
  }

  /** A schema passes exactly when every node is well formed and the depth and node
      limits hold over the whole schema, however early a failing one is rejected. */
  method ValidateSchemaNode(schema: Json, depth: nat, counter: Counter) returns (ok: bool)
    modifies counter
    ensures ok <==> SupportedSchema(schema) && FitsSchemaLimits(schema, depth, old(counter.nodes))
    ensures ok ==> counter.nodes == old(counter.nodes) + NodeCount(schema)
    decreases schema
  {
    hide NodeOk, Subschemas;
    if depth > MAX_SCHEMA_DEPTH {
      return false;
    }
    counter.nodes := counter.nodes + 1;
    if counter.nodes > MAX_SCHEMA_NODES {
      return false;
    }
    if schema.Bool? {
      return true;
    }
    var fits := CheckNode(schema);
    if !fits {
      return false;
    }
    var subs := Subschemas(schema);
    var k := 0;
    while k < |subs|
      invariant 0 <= k <= |subs|
      invariant counter.nodes == old(counter.nodes) + 1 + NodeCounts(schema, subs, k) <= MAX_SCHEMA_NODES
      invariant forall i | 0 <= i < k :: SupportedSchema(subs[i]) && HeightAtMost(subs[i], MAX_SCHEMA_DEPTH - depth - 1)
    {
      CountedSoFar(schema, k);
      var fine := ValidateSchemaNode(subs[k], depth + 1, counter);
      if !fine {
        return false;
      }
      k := k + 1;
    }
    return true;
  }

  // ------------------------------------------------------------------- outcome

  datatype Verdict = UnsupportedSchema | InvalidJson | Mismatch(problems: seq<Problem>) | Accepted(value: Json)

  ghost predicate SchemaAccepted(schema: Json, schemaBytes: nat) {
    schemaBytes <= MAX_SCHEMA_BYTES && SupportedSchema(schema) && FitsSchemaLimits(schema, 0, 0)
  }

  /** `parsed` is what `JSON.parse` makes of the output, `schemaBytes` the size of the
      serialized schema.  The output is accepted exactly when it satisfies the schema, with
      plain equality of values when no infinity is in either. */
  method ParseAndValidate(parsed: Option<Json>, schema: Json, schemaBytes: nat) returns (verdict: Verdict)
    requires WellFormed(schema) && (parsed.Some? ==> WellFormed(parsed.value))
    ensures verdict.UnsupportedSchema? <==> !SchemaAccepted(schema, schemaBytes)
    ensures verdict.InvalidJson? <==> SchemaAccepted(schema, schemaBytes) && parsed.None?
    ensures verdict.Accepted? <==>
              SchemaAccepted(schema, schemaBytes) && parsed.Some? && Satisfies(parsed.value, schema, AsPrinted)
    ensures parsed.Some? && AllFinite(parsed.value) && AllFinite(schema) ==>
              (verdict.Accepted? <==> SchemaAccepted(schema, schemaBytes) && Satisfies(parsed.value, schema, Exactly))
    ensures verdict.Accepted? ==> verdict.value == parsed.value
    ensures verdict.Mismatch? ==> 1 <= |verdict.problems| <= MAX_VALIDATION_ERRORS
  {
    hide WellFormed, SupportedSchema, Satisfies, HeightAtMost, NodeCount;
    if schemaBytes > MAX_SCHEMA_BYTES {
      return UnsupportedSchema;
    }
    var counter := new Counter();
    var supported := ValidateSchemaNode(schema, 0, counter);
    if !supported {
      return UnsupportedSchema;
    }
    if parsed.None? {
      return InvalidJson;
    }
    if AllFinite(parsed.value) && AllFinite(schema) {
      FiniteMeaning(parsed.value, schema);
    }
    var errors := new ErrorList();
    ValidateValue(parsed.value, schema, Ascii("$"), errors);
    if errors.list == [] {
      return Accepted(parsed.value);
    }
    return Mismatch(errors.list);
  }
}
