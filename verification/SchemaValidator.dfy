/** The JSON-schema validator: a shared, capped error list against a declarative reading of the schema. */
module SchemaValidator {
  import opened Json
  import opened Options

  /** Where in the value an error was found. */
  datatype Step = Key(key: string) | Index(i: nat)

  datatype Reason =
    | NoAlternative | NotConstant | NotInEnum | WrongType
    | TooShort | TooLong | BadPattern | PatternMismatch | NotAnInstant
    | NotFinite | BelowMinimum | AboveMaximum
    | TooFewItems | TooManyItems | DuplicateItems
    | MissingKey(key: string) | ExtraKey(key: string)

  datatype Error = Error(path: seq<Step>, reason: Reason)

  datatype PatternResult = Matches | NoMatch | InvalidPattern

  /** Regular expressions and RFC 3339 parsing are left uninterpreted. */
  datatype Oracle = Oracle(pattern: (string, string) -> PatternResult, instant: string -> bool)

  const ERROR_CAP := 8

  function Get(schema: Json, key: string): (r: Option<Json>)
    requires schema.Obj?
    ensures r.Some? ==> HasKey(schema.fields, key) && r.value == Lookup(schema.fields, key)
  {
    if HasKey(schema.fields, key) then Some(Lookup(schema.fields, key)) else None
  }

  /** JavaScript's `<` on numbers. */
  predicate Less(a: Number, b: Number) {
    match (a, b)
    case (NaN, _) => false
    case (_, NaN) => false
    case (_, NegInf) => false
    case (NegInf, _) => true
    case (PosInf, _) => false
    case (_, PosInf) => true
    case (_, _) => Magnitude(a) < Magnitude(b)
  }

  function Magnitude(n: Number): real {
    if n.Fin? then n.value else 0.0
  }

  predicate Finite(n: Number) { n.Fin? || n.NegZero? }

  function Count(n: nat): Number { Fin(n as real) }

  /** `typeof schema[key] === 'number'` and the bound is violated from below or above. */
  predicate Under(schema: Json, key: string, n: Number)
    requires schema.Obj?
  {
    var bound := Get(schema, key);
    bound.Some? && bound.value.Num? && Less(n, bound.value.n)
  }

  predicate Over(schema: Json, key: string, n: Number)
    requires schema.Obj?
  {
    var bound := Get(schema, key);
    bound.Some? && bound.value.Num? && Less(bound.value.n, n)
  }

  predicate IsType(entry: Json, v: Json) {
    entry.Str? &&
    match entry.s
    case "null" => v.Null?
    case "object" => v.Obj?
    case "array" => v.Arr?
    case "string" => v.Str?
    case "boolean" => v.Bool?
    case "number" => v.Num? && Finite(v.n)
    case "integer" => v.Num? && Finite(v.n) && Magnitude(v.n) == Magnitude(v.n).Floor as real
    case _ => false
  }

  predicate MatchesDeclaredType(type_: Json, v: Json) {
    if type_.Arr? then exists i :: 0 <= i < |type_.items| && IsType(type_.items[i], v) else IsType(type_, v)
  }

  // ----- the declarative meaning of a schema -----

  predicate Satisfies(o: Oracle, schema: Json, v: Json)
    requires schema.Obj?
    decreases schema, 3
  {
    var anyOf := Get(schema, "anyOf");
    if anyOf.Some? && anyOf.value.Arr? then
      exists i :: 0 <= i < |anyOf.value.items| && anyOf.value.items[i].Obj? && Satisfies(o, anyOf.value.items[i], v)
    else
      ConstOk(schema, v) && EnumOk(schema, v) && TypeOk(schema, v) && ContentOk(o, schema, v)
  }

  predicate ContentOk(o: Oracle, schema: Json, v: Json)
    requires schema.Obj?
    decreases schema, 2
  {
    match v
    case Str(s) => StringOk(o, schema, s)
    case Num(n) => NumberOk(schema, n)
    case Arr(items) => ArrayOk(o, schema, items)
    case Obj(fields) => ObjectOk(o, schema, fields)
    case _ => true
  }

  predicate ConstOk(schema: Json, v: Json)
    requires schema.Obj?
  {
    var c := Get(schema, "const");
    c.Some? ==> SchemaValuesEqual(c.value, v)
  }

  predicate EnumOk(schema: Json, v: Json)
    requires schema.Obj?
  {
    var e := Get(schema, "enum");
    e.Some? && e.value.Arr? ==> exists i :: 0 <= i < |e.value.items| && SchemaValuesEqual(e.value.items[i], v)
  }

  predicate TypeOk(schema: Json, v: Json)
    requires schema.Obj?
  {
    var t := Get(schema, "type");
    t.Some? ==> MatchesDeclaredType(t.value, v)
  }

  predicate StringOk(o: Oracle, schema: Json, s: string)
    requires schema.Obj?
  {
    var pattern := Get(schema, "pattern");
    && !Under(schema, "minLength", Count(|s|))
    && !Over(schema, "maxLength", Count(|s|))
    && (pattern.Some? && pattern.value.Str? ==> o.pattern(pattern.value.s, s).Matches?)
    && (Get(schema, "format") == Some(Str("date-time")) ==> o.instant(s))
  }

  predicate NumberOk(schema: Json, n: Number)
    requires schema.Obj?
  {
    Finite(n) && !Under(schema, "minimum", n) && !Over(schema, "maximum", n)
  }

  predicate Distinct(items: seq<Json>) {
    forall i, j :: 0 <= i < j < |items| ==> !SchemaValuesEqual(items[i], items[j])
  }

  predicate ItemsOk(o: Oracle, schema: Json, items: seq<Json>)
    requires schema.Obj?
    decreases schema, 0, 0
  {
    var each := Get(schema, "items");
    each.Some? && each.value.Obj? ==> forall i :: 0 <= i < |items| ==> Satisfies(o, each.value, items[i])
  }

  predicate ArrayOk(o: Oracle, schema: Json, items: seq<Json>)
    requires schema.Obj?
    decreases schema, 0, 1
  {
    && !Under(schema, "minItems", Count(|items|))
    && !Over(schema, "maxItems", Count(|items|))
    && (Get(schema, "uniqueItems") == Some(Bool(true)) ==> Distinct(items))
    && ItemsOk(o, schema, items)
  }

  function Properties(schema: Json): (r: seq<Field>)
    requires schema.Obj?
    ensures r == [] || (HasKey(schema.fields, "properties") && Lookup(schema.fields, "properties") == Obj(r))
  {
    var p := Get(schema, "properties");
    if p.Some? && p.value.Obj? then p.value.fields else []
  }

  predicate RequiredOk(schema: Json, fields: seq<Field>)
    requires schema.Obj?
  {
    var r := Get(schema, "required");
    r.Some? && r.value.Arr? ==>
      forall i :: 0 <= i < |r.value.items| && r.value.items[i].Str? ==> HasKey(fields, r.value.items[i].s)
  }

  predicate AdditionalOk(schema: Json, fields: seq<Field>)
    requires schema.Obj?
  {
    Get(schema, "additionalProperties") == Some(Bool(false)) ==>
      forall i :: 0 <= i < |fields| ==> HasKey(Properties(schema), fields[i].key)
  }

  predicate PropertyOk(o: Oracle, property: Field, fields: seq<Field>)
    decreases property.value, 4
  {
    HasKey(fields, property.key) && property.value.Obj? ==>
      Satisfies(o, property.value, Lookup(fields, property.key))
  }

  predicate ObjectOk(o: Oracle, schema: Json, fields: seq<Field>)
    requires schema.Obj?
    decreases schema, 0
  {
    && RequiredOk(schema, fields)
    && AdditionalOk(schema, fields)
    && var properties := Properties(schema);
       forall i :: 0 <= i < |properties| ==> PropertyOk(o, properties[i], fields)
  }

  // ----- every error there is, in the order of the visit -----

  /** Errors pushed between two looks at the length of the list. */
  type Burst = seq<Error>

  function If(bad: bool, path: seq<Step>, reason: Reason): (r: Burst)
    ensures |r| <= 1 && (r == [] <==> !bad)
  {
    if bad then [Error(path, reason)] else []
  }

  function LengthErrors(schema: Json, s: string, path: seq<Step>): (r: Burst)
    requires schema.Obj?
    ensures |r| <= 2
    ensures r == [] <==> !Under(schema, "minLength", Count(|s|)) && !Over(schema, "maxLength", Count(|s|))
  {
    If(Under(schema, "minLength", Count(|s|)), path, TooShort)
    + If(Over(schema, "maxLength", Count(|s|)), path, TooLong)
  }

  /** A pattern that is not one ends the checks of the string. */
  function PatternErrors(o: Oracle, schema: Json, s: string, path: seq<Step>): (r: Burst)
    requires schema.Obj?
    ensures |r| <= 2
  {
    var pattern := Get(schema, "pattern");
    var result := if pattern.Some? && pattern.value.Str? then o.pattern(pattern.value.s, s) else Matches;
    var format := If(Get(schema, "format") == Some(Str("date-time")) && !o.instant(s), path, NotAnInstant);
    match result
    case InvalidPattern => [Error(path, BadPattern)]
    case NoMatch => [Error(path, PatternMismatch)] + format
    case Matches => format
  }

  function StringErrors(o: Oracle, schema: Json, s: string, path: seq<Step>): (r: Burst)
    requires schema.Obj?
    ensures |r| <= 4 && (r == [] <==> StringOk(o, schema, s))
  {
    LengthErrors(schema, s, path) + PatternErrors(o, schema, s, path)
  }

  function NumberErrors(schema: Json, n: Number, path: seq<Step>): (r: Burst)
    requires schema.Obj?
    ensures |r| <= 2 && (r == [] <==> NumberOk(schema, n))
  {
    if !Finite(n) then [Error(path, NotFinite)] else
      If(Under(schema, "minimum", n), path, BelowMinimum) + If(Over(schema, "maximum", n), path, AboveMaximum)
  }

  /** What an array node reports before it visits its items. */
  function ArrayErrors(schema: Json, items: seq<Json>, path: seq<Step>): (r: Burst)
    requires schema.Obj?
    ensures |r| <= 3
    ensures r == [] <==> && !Under(schema, "minItems", Count(|items|)) && !Over(schema, "maxItems", Count(|items|))
                         && (Get(schema, "uniqueItems") == Some(Bool(true)) ==> Distinct(items))
  {
    If(Under(schema, "minItems", Count(|items|)), path, TooFewItems)
    + If(Over(schema, "maxItems", Count(|items|)), path, TooManyItems)
    + If(Get(schema, "uniqueItems") == Some(Bool(true)) && !Distinct(items), path, DuplicateItems)
  }

  function RequiredKeys(schema: Json): seq<Json>
    requires schema.Obj?
  {
    var required := Get(schema, "required");
    if required.Some? && required.value.Arr? then required.value.items else []
  }

  function MissingErrors(keys: seq<Json>, fields: seq<Field>, path: seq<Step>): (r: seq<Burst>)
    ensures Small(r)
  {
    if keys == [] then [] else
      var key := keys[|keys| - 1];
      MissingErrors(keys[..|keys| - 1], fields, path)
      + if key.Str? && !HasKey(fields, key.s) then [[Error(path, MissingKey(key.s))]] else []
  }

  function ExtraErrors(schema: Json, fields: seq<Field>, path: seq<Step>): (r: seq<Burst>)
    requires schema.Obj?
    ensures Small(r)
  {
    if fields == [] then [] else
      var key := fields[|fields| - 1].key;
      ExtraErrors(schema, fields[..|fields| - 1], path)
      + if !HasKey(Properties(schema), key) then [[Error(path, ExtraKey(key))]] else []
  }

  predicate Closed(schema: Json)
    requires schema.Obj?
  {
    Get(schema, "additionalProperties") == Some(Bool(false))
  }

  predicate Small(bursts: seq<Burst>) { forall i :: 0 <= i < |bursts| ==> |bursts[i]| <= 4 }

  /** The bursts of a node and of everything below it. */
  function NodeErrors(o: Oracle, schema: Json, v: Json, path: seq<Step>): (r: seq<Burst>)
    requires schema.Obj?
    ensures Small(r)
    decreases schema, 5
  {
    var anyOf := Get(schema, "anyOf");
    if anyOf.Some? && anyOf.value.Arr? then [If(!Satisfies(o, schema, v), path, NoAlternative)]
    else if !ConstOk(schema, v) then [[Error(path, NotConstant)]]
    else if !EnumOk(schema, v) then [[Error(path, NotInEnum)]]
    else if !TypeOk(schema, v) then [[Error(path, WrongType)]]
    else ContentErrors(o, schema, v, path)
  }

  function ContentErrors(o: Oracle, schema: Json, v: Json, path: seq<Step>): (r: seq<Burst>)
    requires schema.Obj?
    ensures Small(r)
    decreases schema, 4
  {
    match v
    case Str(s) => [StringErrors(o, schema, s, path)]
    case Num(n) => [NumberErrors(schema, n, path)]
    case Arr(items) => [ArrayErrors(schema, items, path)] + ItemErrors(o, schema, items, path, |items|)
    case Obj(fields) =>
      MissingErrors(RequiredKeys(schema), fields, path)
      + (if Closed(schema) then ExtraErrors(schema, fields, path) else [])
      + PropertyErrors(o, schema, fields, path, |Properties(schema)|)
    case _ => []
  }

  /** The first n items. */
  function ItemErrors(o: Oracle, schema: Json, items: seq<Json>, path: seq<Step>, n: nat): (r: seq<Burst>)
    requires schema.Obj? && n <= |items|
    ensures Small(r)
    decreases schema, 3, n
  {
    var each := Get(schema, "items");
    if n == 0 || each.None? || !each.value.Obj? then [] else
      ItemErrors(o, schema, items, path, n - 1) + NodeErrors(o, each.value, items[n - 1], path + [Index(n - 1)])
  }

  /** The first n declared properties. */
  function PropertyErrors(o: Oracle, schema: Json, fields: seq<Field>, path: seq<Step>, n: nat): (r: seq<Burst>)
    requires schema.Obj? && n <= |Properties(schema)|
    ensures Small(r)
    decreases schema, 3, n
  {
    if n == 0 then [] else
      var p := Properties(schema)[n - 1];
      PropertyErrors(o, schema, fields, path, n - 1) + PropertyError(o, p, fields, path)
  }

  function PropertyError(o: Oracle, p: Field, fields: seq<Field>, path: seq<Step>): (r: seq<Burst>)
    ensures Small(r)
    decreases p.value, 6
  {
    if HasKey(fields, p.key) && p.value.Obj?
    then NodeErrors(o, p.value, Lookup(fields, p.key), path + [Key(p.key)]) else []
  }

  function Flatten(bursts: seq<Burst>): seq<Error> {
    if bursts == [] then [] else Flatten(bursts[..|bursts| - 1]) + bursts[|bursts| - 1]
  }

  /** The uncapped list. */
  function AllErrors(o: Oracle, schema: Json, v: Json): seq<Error>
    requires schema.Obj?
  {
    Flatten(NodeErrors(o, schema, v, []))
  }

  // ----- the capped list -----

  /** What a list becomes: a burst is added whole as long as there is room before it. */
  function Report(start: seq<Error>, bursts: seq<Burst>): seq<Error> {
    if bursts == [] then start else
      var before := Report(start, bursts[..|bursts| - 1]);
      if |before| >= ERROR_CAP then before else before + bursts[|bursts| - 1]
  }

  lemma {:induction false} ReportConcat(start: seq<Error>, a: seq<Burst>, b: seq<Burst>)
    ensures Report(start, a + b) == Report(Report(start, a), b)
  {
    if b == [] {
      assert a + b == a;
    } else {
      assert (a + b)[..|a + b| - 1] == a + b[..|b| - 1];
      ReportConcat(start, a, b[..|b| - 1]);
    }
  }

  lemma {:induction false} FullStaysFull(start: seq<Error>, bursts: seq<Burst>)
    requires |start| >= ERROR_CAP
    ensures Report(start, bursts) == start
  {
    if bursts != [] { FullStaysFull(start, bursts[..|bursts| - 1]); }
  }

  lemma ReportOne(start: seq<Error>, burst: Burst)
    requires |start| < ERROR_CAP
    ensures Report(start, [burst]) == start + burst
  {
    assert [burst][..0] == [];
  }

  predicate Clean(bursts: seq<Burst>) { forall i :: 0 <= i < |bursts| ==> bursts[i] == [] }

  lemma CleanConcat(a: seq<Burst>, b: seq<Burst>)
    ensures Clean(a + b) <==> Clean(a) && Clean(b)
  {
    if Clean(a + b) {
      forall i | 0 <= i < |a| ensures a[i] == [] { assert (a + b)[i] == a[i]; }
      forall i | 0 <= i < |b| ensures b[i] == [] { assert (a + b)[|a| + i] == b[i]; }
    }
  }

  lemma CleanOne(burst: Burst)
    ensures Clean([burst]) <==> burst == []
  {
    if Clean([burst]) { assert [burst][0] == burst; }
  }

  /** Below the cap: the list grows, exactly when there is an error, and by at most three past the cap. */
  lemma {:induction false} ReportGrows(start: seq<Error>, bursts: seq<Burst>)
    requires |start| < ERROR_CAP && Small(bursts)
    ensures var r := Report(start, bursts);
            start <= r && (r == start <==> Clean(bursts)) && |r| <= ERROR_CAP + 3
  {
    if bursts != [] {
      var n := |bursts| - 1;
      ReportGrows(start, bursts[..n]);
      assert bursts == bursts[..n] + [bursts[n]];
      CleanConcat(bursts[..n], [bursts[n]]);
    }
  }

  /** The reported list is a beginning of the uncapped one; when it is cut short it is at the cap or past it. */
  lemma {:induction false} ReportIsPrefix(bursts: seq<Burst>)
    ensures Report([], bursts) <= Flatten(bursts)
    ensures |Report([], bursts)| < ERROR_CAP ==> Report([], bursts) == Flatten(bursts)
  {
    if bursts != [] { ReportIsPrefix(bursts[..|bursts| - 1]); }
  }

  /** Burst k finds room and fills the list past the cap. */
  predicate Overshoots(bursts: seq<Burst>, k: nat) {
    k < |bursts| && |Flatten(bursts[..k])| < ERROR_CAP < |Flatten(bursts[..k])| + |bursts[k]|
  }

  /** A burst that straddles the cap is the last one reported, and is reported whole. */
  lemma OvershootEndsReport(bursts: seq<Burst>, k: nat)
    requires Overshoots(bursts, k)
    ensures Report([], bursts) == Flatten(bursts[..k]) + bursts[k]
  {
    ReportIsPrefix(bursts[..k]);
    assert bursts == (bursts[..k] + [bursts[k]]) + bursts[k + 1..];
    ReportConcat([], bursts[..k] + [bursts[k]], bursts[k + 1..]);
    ReportConcat([], bursts[..k], [bursts[k]]);
    ReportOne(Flatten(bursts[..k]), bursts[k]);
    FullStaysFull(Flatten(bursts[..k]) + bursts[k], bursts[k + 1..]);
  }

  lemma {:induction false} PastCapMeansOvershoot(bursts: seq<Burst>) returns (k: nat)
    requires |Report([], bursts)| > ERROR_CAP
    ensures Overshoots(bursts, k)
  {
    var n := |bursts| - 1;
    if |Report([], bursts[..n])| >= ERROR_CAP {
      k := PastCapMeansOvershoot(bursts[..n]);
      assert bursts[..n][..k] == bursts[..k];
    } else {
      ReportIsPrefix(bursts[..n]);
      k := n;
    }
  }

  /** More than eight errors are reported exactly when the checks of one node, made in one go, straddle the cap. */
  lemma MoreThanCapIff(bursts: seq<Burst>)
    ensures |Report([], bursts)| > 8 <==> exists k: nat :: Overshoots(bursts, k)
  {
    if |Report([], bursts)| > ERROR_CAP {
      var k := PastCapMeansOvershoot(bursts);
    }
    if k: nat :| Overshoots(bursts, k) { OvershootEndsReport(bursts, k); }
  }

  // ----- no errors means the schema is satisfied -----

  lemma {:induction false} NoErrorsIff(o: Oracle, schema: Json, v: Json, path: seq<Step>)
    requires schema.Obj?
    ensures Clean(NodeErrors(o, schema, v, path)) <==> Satisfies(o, schema, v)
    decreases schema, 5
  {
    var anyOf := Get(schema, "anyOf");
    if !(anyOf.Some? && anyOf.value.Arr?) && ConstOk(schema, v) && EnumOk(schema, v) && TypeOk(schema, v) {
      NoContentErrorsIff(o, schema, v, path);
    } else {
      CleanOne(NodeErrors(o, schema, v, path)[0]);
    }
  }

  lemma {:induction false} NoContentErrorsIff(o: Oracle, schema: Json, v: Json, path: seq<Step>)
    requires schema.Obj?
    ensures Clean(ContentErrors(o, schema, v, path)) <==> ContentOk(o, schema, v)
    decreases schema, 4, 1
  {
    match v
    case Str(s) => CleanOne(StringErrors(o, schema, s, path));
    case Num(n) => CleanOne(NumberErrors(schema, n, path));
    case Arr(items) =>
      NoItemErrorsAtAllIff(o, schema, items, path);
      CleanConcat([ArrayErrors(schema, items, path)], ItemErrors(o, schema, items, path, |items|));
      CleanOne(ArrayErrors(schema, items, path));
    case Obj(fields) => NoObjectErrorsIff(o, schema, fields, path);
    case _ =>
  }

  lemma CleanThree(a: seq<Burst>, b: seq<Burst>, c: seq<Burst>)
    ensures Clean(a + b + c) <==> Clean(a) && Clean(b) && Clean(c)
  {
    CleanConcat(a, b);
    CleanConcat(a + b, c);
  }

  lemma ObjectErrorsParts(o: Oracle, schema: Json, fields: seq<Field>, path: seq<Step>)
    requires schema.Obj?
    ensures Clean(ContentErrors(o, schema, Obj(fields), path))
            <==> Clean(MissingErrors(RequiredKeys(schema), fields, path))
                 && Clean(if Closed(schema) then ExtraErrors(schema, fields, path) else [])
                 && Clean(PropertyErrors(o, schema, fields, path, |Properties(schema)|))
  {
    CleanThree(MissingErrors(RequiredKeys(schema), fields, path),
               if Closed(schema) then ExtraErrors(schema, fields, path) else [],
               PropertyErrors(o, schema, fields, path, |Properties(schema)|));
  }

  lemma {:induction false} NoObjectErrorsIff(o: Oracle, schema: Json, fields: seq<Field>, path: seq<Step>)
    requires schema.Obj?
    ensures Clean(ContentErrors(o, schema, Obj(fields), path)) <==> ObjectOk(o, schema, fields)
    decreases schema, 4, 0
  {
    ObjectErrorsParts(o, schema, fields, path);
    assert Clean(MissingErrors(RequiredKeys(schema), fields, path)) <==> RequiredOk(schema, fields) by {
      NoMissingErrorsIff(RequiredKeys(schema), fields, path);
    }
    assert Clean(if Closed(schema) then ExtraErrors(schema, fields, path) else [])
        <==> AdditionalOk(schema, fields)
    by {
      NoExtraErrorsIff(schema, fields, path);
    }
    NoPropertyErrorsIff(o, schema, fields, path, |Properties(schema)|);
    ObjectOkParts(o, schema, fields);
  }

  lemma ObjectOkParts(o: Oracle, schema: Json, fields: seq<Field>)
    requires schema.Obj?
    ensures ObjectOk(o, schema, fields)
            <==> RequiredOk(schema, fields) && AdditionalOk(schema, fields)
                 && FirstPropertiesOk(o, Properties(schema), fields, |Properties(schema)|)
  {
  }

  predicate FirstItemsOk(o: Oracle, each: Json, items: seq<Json>, n: nat)
    requires each.Obj? && n <= |items|
  {
    forall i :: 0 <= i < n ==> Satisfies(o, each, items[i])
  }

  lemma {:induction false} NoItemErrorsIff(o: Oracle, schema: Json, items: seq<Json>, path: seq<Step>, n: nat)
    requires schema.Obj? && n <= |items| && Get(schema, "items").Some? && Get(schema, "items").value.Obj?
    ensures Clean(ItemErrors(o, schema, items, path, n)) <==> FirstItemsOk(o, Get(schema, "items").value, items, n)
    decreases schema, 3, n
  {
    var each := Get(schema, "items").value;
    if n > 0 {
      NoItemErrorsIff(o, schema, items, path, n - 1);
      NoErrorsIff(o, each, items[n - 1], path + [Index(n - 1)]);
      CleanConcat(ItemErrors(o, schema, items, path, n - 1), NodeErrors(o, each, items[n - 1], path + [Index(n - 1)]));
      OneMoreItem(o, each, items, n);
    }
  }

  lemma OneMoreItem(o: Oracle, each: Json, items: seq<Json>, n: nat)
    requires each.Obj? && 0 < n <= |items|
    ensures FirstItemsOk(o, each, items, n) <==> FirstItemsOk(o, each, items, n - 1) && Satisfies(o, each, items[n - 1])
  {
  }

  lemma NoItemErrorsAtAllIff(o: Oracle, schema: Json, items: seq<Json>, path: seq<Step>)
    requires schema.Obj?
    ensures Clean(ItemErrors(o, schema, items, path, |items|)) <==> ItemsOk(o, schema, items)
    decreases schema, 4, 0
  {
    var each := Get(schema, "items");
    if each.Some? && each.value.Obj? {
      NoItemErrorsIff(o, schema, items, path, |items|);
      assert FirstItemsOk(o, each.value, items, |items|) <==> ItemsOk(o, schema, items);
    }
  }

  predicate FirstPropertiesOk(o: Oracle, properties: seq<Field>, fields: seq<Field>, n: nat)
    requires n <= |properties|
  {
    forall i :: 0 <= i < n ==> PropertyOk(o, properties[i], fields)
  }

  lemma {:induction false} NoPropertyErrorsIff(o: Oracle, schema: Json, fields: seq<Field>, path: seq<Step>, n: nat)
    requires schema.Obj? && n <= |Properties(schema)|
    ensures Clean(PropertyErrors(o, schema, fields, path, n)) <==> FirstPropertiesOk(o, Properties(schema), fields, n)
    decreases schema, 3, n
  {
    if n > 0 {
      var p := Properties(schema)[n - 1];
      NoPropertyErrorsIff(o, schema, fields, path, n - 1);
      NoPropertyErrorIff(o, p, fields, path);
      CleanConcat(PropertyErrors(o, schema, fields, path, n - 1), PropertyError(o, p, fields, path));
      OneMoreProperty(o, Properties(schema), fields, n);
    }
  }

  lemma OneMoreProperty(o: Oracle, properties: seq<Field>, fields: seq<Field>, n: nat)
    requires 0 < n <= |properties|
    ensures FirstPropertiesOk(o, properties, fields, n)
            <==> FirstPropertiesOk(o, properties, fields, n - 1) && PropertyOk(o, properties[n - 1], fields)
  {
  }

  lemma {:induction false} NoPropertyErrorIff(o: Oracle, p: Field, fields: seq<Field>, path: seq<Step>)
    ensures Clean(PropertyError(o, p, fields, path)) <==> PropertyOk(o, p, fields)
    decreases p.value, 6
  {
    if HasKey(fields, p.key) && p.value.Obj? {
      NoErrorsIff(o, p.value, Lookup(fields, p.key), path + [Key(p.key)]);
    }
  }

  lemma {:induction false} NoMissingErrorsIff(keys: seq<Json>, fields: seq<Field>, path: seq<Step>)
    ensures Clean(MissingErrors(keys, fields, path))
            <==> forall i :: 0 <= i < |keys| && keys[i].Str? ==> HasKey(fields, keys[i].s)
  {
    if keys != [] {
      var n := |keys| - 1;
      NoMissingErrorsIff(keys[..n], fields, path);
      var last := if keys[n].Str? && !HasKey(fields, keys[n].s) then [[Error(path, MissingKey(keys[n].s))]] else [];
      CleanConcat(MissingErrors(keys[..n], fields, path), last);
      assert last != [] ==> last[0] != [];
      assert forall i :: 0 <= i < n ==> keys[..n][i] == keys[i];
    }
  }

  lemma {:induction false} NoExtraErrorsIff(schema: Json, fields: seq<Field>, path: seq<Step>)
    requires schema.Obj?
    ensures Clean(ExtraErrors(schema, fields, path))
            <==> forall i :: 0 <= i < |fields| ==> HasKey(Properties(schema), fields[i].key)
  {
    if fields != [] {
      var n := |fields| - 1;
      NoExtraErrorsIff(schema, fields[..n], path);
      var key := fields[n].key;
      var last := if !HasKey(Properties(schema), key) then [[Error(path, ExtraKey(key))]] else [];
      CleanConcat(ExtraErrors(schema, fields[..n], path), last);
      assert last != [] ==> last[0] != [];
      assert forall i :: 0 <= i < n ==> fields[..n][i] == fields[i];
    }
  }

  // ----- the validator -----

  class ErrorList {
    var errors: seq<Error>

    constructor ()
      ensures errors == []
    {
      errors := [];
    }

    method Push(path: seq<Step>, reason: Reason)
      modifies this
      ensures errors == old(errors) + [Error(path, reason)]
    {
      errors := errors + [Error(path, reason)];
    }
  }

  /** What one pass over a node may do to the shared list: append, at most `most` entries, exactly on a fault. */
  ghost predicate Appended(before: seq<Error>, after: seq<Error>, most: nat, ok: bool) {
    && before <= after
    && (ok <==> after == before)
    && |after| <= |before| + most
  }

  lemma AppendedBurst(start: seq<Error>, burst: Burst, most: nat, ok: bool)
    requires |burst| <= most && (ok <==> burst == [])
    ensures Appended(start, start + burst, most, ok)
  {
    if start + burst == start { assert |burst| == 0; }
  }

  /** A node leaves a full list alone; below the cap it appends exactly when the value fails, three past it at most. */
  ghost predicate Visited(before: seq<Error>, after: seq<Error>, ok: bool) {
    if |before| >= ERROR_CAP then after == before
    else before <= after && (after == before <==> ok) && |after| <= ERROR_CAP + 3
  }

  lemma NodeIsVisited(o: Oracle, schema: Json, v: Json, path: seq<Step>, start: seq<Error>)
    requires schema.Obj?
    ensures Visited(start, Report(start, NodeErrors(o, schema, v, path)), Satisfies(o, schema, v))
  {
    var bursts := NodeErrors(o, schema, v, path);
    NoErrorsIff(o, schema, v, path);
    if |start| < ERROR_CAP { ReportGrows(start, bursts); } else { FullStaysFull(start, bursts); }
  }

  lemma ContentIsVisited(o: Oracle, schema: Json, v: Json, path: seq<Step>, start: seq<Error>)
    requires schema.Obj?
    ensures Visited(start, Report(start, ContentErrors(o, schema, v, path)), ContentOk(o, schema, v))
  {
    var bursts := ContentErrors(o, schema, v, path);
    NoContentErrorsIff(o, schema, v, path);
    if |start| < ERROR_CAP { ReportGrows(start, bursts); } else { FullStaysFull(start, bursts); }
  }

  /** The report of a node below the cap, check by check. */
  lemma NodeReport(o: Oracle, schema: Json, v: Json, path: seq<Step>, start: seq<Error>)
    requires schema.Obj? && |start| < ERROR_CAP
    ensures var anyOf := Get(schema, "anyOf");
            Report(start, NodeErrors(o, schema, v, path)) ==
            if anyOf.Some? && anyOf.value.Arr? then start + If(!Satisfies(o, schema, v), path, NoAlternative)
            else if !ConstOk(schema, v) then start + [Error(path, NotConstant)]
            else if !EnumOk(schema, v) then start + [Error(path, NotInEnum)]
            else if !TypeOk(schema, v) then start + [Error(path, WrongType)]
            else Report(start, ContentErrors(o, schema, v, path))
  {
    ReportOne(start, If(!Satisfies(o, schema, v), path, NoAlternative));
    ReportOne(start, [Error(path, NotConstant)]);
    ReportOne(start, [Error(path, NotInEnum)]);
    ReportOne(start, [Error(path, WrongType)]);
  }

  /** valid means no errors; the list is the capped report, at most eleven errors long. */
  method ValidateJsonSchema(o: Oracle, schema: Json, v: Json) returns (valid: bool, errors: seq<Error>)
    requires schema.Obj?
    ensures valid <==> Satisfies(o, schema, v)
    ensures valid <==> errors == []
    ensures |errors| <= 11
    ensures errors == Report([], NodeErrors(o, schema, v, [])) <= AllErrors(o, schema, v)
  {
    var sink := new ErrorList();
    ValidateSchemaNode(o, schema, v, [], sink);
    errors := sink.errors;
    valid := |errors| == 0;
    ReportIsPrefix(NodeErrors(o, schema, v, []));
  }

  method ValidateSchemaNode(o: Oracle, schema: Json, v: Json, path: seq<Step>, sink: ErrorList)
    requires schema.Obj?
    modifies sink
    ensures sink.errors == Report(old(sink.errors), NodeErrors(o, schema, v, path))
    ensures Visited(old(sink.errors), sink.errors, Satisfies(o, schema, v))
    decreases schema, 5
  {
    ghost var bursts := NodeErrors(o, schema, v, path);
    NodeIsVisited(o, schema, v, path, sink.errors);
    if |sink.errors| >= ERROR_CAP {
      FullStaysFull(sink.errors, bursts);
      return;
    }
    NodeReport(o, schema, v, path, sink.errors);
    var anyOf := Get(schema, "anyOf");
    if anyOf.Some? && anyOf.value.Arr? {
      var matched := SomeAlternative(o, schema, anyOf.value.items, v, path);
      if !matched { sink.Push(path, NoAlternative); }
      return;
    }
    var constant := Get(schema, "const");
    if constant.Some? && !SchemaValuesEqual(constant.value, v) {
      sink.Push(path, NotConstant);
      return;
    }
    var allowed := Get(schema, "enum");
    if allowed.Some? && allowed.value.Arr?
       && !(exists i :: 0 <= i < |allowed.value.items| && SchemaValuesEqual(allowed.value.items[i], v)) {
      sink.Push(path, NotInEnum);
      return;
    }
    var declared := Get(schema, "type");
    if declared.Some? && !MatchesDeclaredType(declared.value, v) {
      sink.Push(path, WrongType);
      return;
    }
    ValidateContent(o, schema, v, path, sink);
  }

  method ValidateContent(o: Oracle, schema: Json, v: Json, path: seq<Step>, sink: ErrorList)
    requires schema.Obj? && |sink.errors| < ERROR_CAP
    modifies sink
    ensures sink.errors == Report(old(sink.errors), ContentErrors(o, schema, v, path))
    ensures Visited(old(sink.errors), sink.errors, ContentOk(o, schema, v))
    decreases schema, 4
  {
    ContentIsVisited(o, schema, v, path, sink.errors);
    match v {
      case Str(s) =>
        ReportOne(sink.errors, StringErrors(o, schema, s, path));
        ValidateString(o, schema, s, path, sink);
      case Num(n) =>
        ReportOne(sink.errors, NumberErrors(schema, n, path));
        ValidateNumber(schema, n, path, sink);
      case Arr(items) => ValidateArray(o, schema, items, path, sink);
      case Obj(fields) => ValidateObject(o, schema, fields, path, sink);
      case _ =>
    }
  }

  /** Each alternative is tried against an error list of its own. */
  method SomeAlternative(o: Oracle, schema: Json, alternatives: seq<Json>, v: Json, path: seq<Step>)
      returns (matched: bool)
    requires schema.Obj? && Get(schema, "anyOf") == Some(Arr(alternatives))
    ensures matched <==>
              exists i :: 0 <= i < |alternatives| && alternatives[i].Obj? && Satisfies(o, alternatives[i], v)
    decreases schema, 1
  {
    for i := 0 to |alternatives|
      invariant forall k :: 0 <= k < i && alternatives[k].Obj? ==> !Satisfies(o, alternatives[k], v)
    {
      if alternatives[i].Obj? {
        var candidateErrors := new ErrorList();
        ValidateSchemaNode(o, alternatives[i], v, path, candidateErrors);
        if candidateErrors.errors == [] { return true; }
      }
    }
    return false;
  }

  method ValidateString(o: Oracle, schema: Json, s: string, path: seq<Step>, sink: ErrorList)
    requires schema.Obj?
    modifies sink
    ensures sink.errors == old(sink.errors) + StringErrors(o, schema, s, path)
    ensures Appended(old(sink.errors), sink.errors, 4, StringOk(o, schema, s))
  {
    AppendedBurst(sink.errors, StringErrors(o, schema, s, path), 4, StringOk(o, schema, s));
    if Under(schema, "minLength", Count(|s|)) { sink.Push(path, TooShort); }
    if Over(schema, "maxLength", Count(|s|)) { sink.Push(path, TooLong); }
    assert sink.errors == old(sink.errors) + LengthErrors(schema, s, path);
    CheckPattern(o, schema, s, path, sink);
  }

  method CheckPattern(o: Oracle, schema: Json, s: string, path: seq<Step>, sink: ErrorList)
    requires schema.Obj?
    modifies sink
    ensures sink.errors == old(sink.errors) + PatternErrors(o, schema, s, path)
  {
    var pattern := Get(schema, "pattern");
    if pattern.Some? && pattern.value.Str? {
      match o.pattern(pattern.value.s, s) {
        case InvalidPattern =>
          sink.Push(path, BadPattern);
          return;
        case NoMatch => sink.Push(path, PatternMismatch);
        case Matches =>
      }
    }
    if Get(schema, "format") == Some(Str("date-time")) && !o.instant(s) { sink.Push(path, NotAnInstant); }
  }

  method ValidateNumber(schema: Json, n: Number, path: seq<Step>, sink: ErrorList)
    requires schema.Obj?
    modifies sink
    ensures sink.errors == old(sink.errors) + NumberErrors(schema, n, path)
    ensures Appended(old(sink.errors), sink.errors, 2, NumberOk(schema, n))
  {
    AppendedBurst(sink.errors, NumberErrors(schema, n, path), 2, NumberOk(schema, n));
    if !Finite(n) {
      sink.Push(path, NotFinite);
      return;
    }
    if Under(schema, "minimum", n) { sink.Push(path, BelowMinimum); }
    if Over(schema, "maximum", n) { sink.Push(path, AboveMaximum); }
  }

  /** A list that is full after the first i items stays as it is over the rest. */
  /** A list that is full after some bursts is the same after more. */
  lemma FullTakesNoMore(start: seq<Error>, before: seq<Burst>, last: seq<Burst>)
    requires |Report(start, before)| >= ERROR_CAP
    ensures Report(start, before + last) == Report(start, before)
  {
    ReportConcat(start, before, last);
    FullStaysFull(Report(start, before), last);
  }

  lemma {:induction false} ItemsStop(o: Oracle, schema: Json, items: seq<Json>, path: seq<Step>, i: nat, n: nat,
                                     start: seq<Error>)
    requires schema.Obj? && i <= n <= |items|
    requires |Report(start, ItemErrors(o, schema, items, path, i))| >= ERROR_CAP
    ensures Report(start, ItemErrors(o, schema, items, path, n)) == Report(start, ItemErrors(o, schema, items, path, i))
  {
    var each := Get(schema, "items");
    if i < n && each.Some? && each.value.Obj? {
      ItemsStop(o, schema, items, path, i, n - 1, start);
      FullTakesNoMore(start, ItemErrors(o, schema, items, path, n - 1),
                      NodeErrors(o, each.value, items[n - 1], path + [Index(n - 1)]));
    }
  }

  method ValidateArray(o: Oracle, schema: Json, items: seq<Json>, path: seq<Step>, sink: ErrorList)
    requires schema.Obj? && |sink.errors| < ERROR_CAP
    modifies sink
    ensures sink.errors == Report(old(sink.errors), ContentErrors(o, schema, Arr(items), path))
    ensures Visited(old(sink.errors), sink.errors, ArrayOk(o, schema, items))
    decreases schema, 3
  {
    ContentIsVisited(o, schema, Arr(items), path, sink.errors);
    ReportOne(sink.errors, ArrayErrors(schema, items, path));
    ReportConcat(sink.errors, [ArrayErrors(schema, items, path)], ItemErrors(o, schema, items, path, |items|));
    ReportArrayErrors(schema, items, path, sink);
    VisitItems(o, schema, items, path, sink);
  }

  method VisitItems(o: Oracle, schema: Json, items: seq<Json>, path: seq<Step>, sink: ErrorList)
    requires schema.Obj?
    modifies sink
    ensures sink.errors == Report(old(sink.errors), ItemErrors(o, schema, items, path, |items|))
    decreases schema, 2
  {
    ghost var start := sink.errors;
    var each := Get(schema, "items");
    if each.Some? && each.value.Obj? {
      var i := 0;
      while i < |items| && |sink.errors| < ERROR_CAP
        invariant 0 <= i <= |items|
        invariant sink.errors == Report(start, ItemErrors(o, schema, items, path, i))
      {
        ReportConcat(start, ItemErrors(o, schema, items, path, i),
                     NodeErrors(o, each.value, items[i], path + [Index(i)]));
        ValidateSchemaNode(o, each.value, items[i], path + [Index(i)], sink);
        i := i + 1;
      }
      if i < |items| { ItemsStop(o, schema, items, path, i, |items|, start); }
    }
  }

  method ReportArrayErrors(schema: Json, items: seq<Json>, path: seq<Step>, sink: ErrorList)
    requires schema.Obj?
    modifies sink
    ensures sink.errors == old(sink.errors) + ArrayErrors(schema, items, path)
  {
    if Under(schema, "minItems", Count(|items|)) { sink.Push(path, TooFewItems); }
    if Over(schema, "maxItems", Count(|items|)) { sink.Push(path, TooManyItems); }
    if Get(schema, "uniqueItems") == Some(Bool(true)) {
      var duplicate := FindDuplicate(items);
      if duplicate { sink.Push(path, DuplicateItems); }
    }
  }

  method FindDuplicate(items: seq<Json>) returns (duplicate: bool)
    ensures duplicate <==> !Distinct(items)
  {
    for j := 0 to |items|
      invariant Distinct(items[..j])
    {
      if exists i :: 0 <= i < j && SchemaValuesEqual(items[i], items[j]) { return true; }
    }
    assert items[..|items|] == items;
    return false;
  }

  method ValidateObject(o: Oracle, schema: Json, fields: seq<Field>, path: seq<Step>, sink: ErrorList)
    requires schema.Obj? && |sink.errors| < ERROR_CAP
    modifies sink
    ensures sink.errors == Report(old(sink.errors), ContentErrors(o, schema, Obj(fields), path))
    ensures Visited(old(sink.errors), sink.errors, ObjectOk(o, schema, fields))
    decreases schema, 3
  {
    ContentIsVisited(o, schema, Obj(fields), path, sink.errors);
    VisitObject(o, schema, fields, path, sink);
  }

  /** What the object lacks, what it has beyond the declared keys, and what its values report. */
  ghost function ObjectParts(o: Oracle, schema: Json, fields: seq<Field>, path: seq<Step>)
      : (seq<Burst>, seq<Burst>, seq<Burst>)
    requires schema.Obj?
  {
    (MissingErrors(RequiredKeys(schema), fields, path),
     if Closed(schema) then ExtraErrors(schema, fields, path) else [],
     PropertyErrors(o, schema, fields, path, |Properties(schema)|))
  }

  method VisitObject(o: Oracle, schema: Json, fields: seq<Field>, path: seq<Step>, sink: ErrorList)
    requires schema.Obj? && |sink.errors| < ERROR_CAP
    modifies sink
    ensures var (missing, extra, rest) := ObjectParts(o, schema, fields, path);
            sink.errors == Report(old(sink.errors), missing + extra + rest)
    decreases schema, 2
  {
    ghost var start := sink.errors;
    ghost var (missing, extra, rest) := ObjectParts(o, schema, fields, path);
    ReportConcat(start, missing + extra, rest);
    ReportConcat(start, missing, extra);
    var full := CheckRequired(schema, fields, path, sink);
    if full {
      FullStaysFull(sink.errors, extra);
      FullStaysFull(sink.errors, rest);
      return;
    }
    full := CheckAdditional(schema, fields, path, sink);
    if full {
      FullStaysFull(sink.errors, rest);
      return;
    }
    CheckProperties(o, schema, fields, path, sink);
  }

  method CheckProperties(o: Oracle, schema: Json, fields: seq<Field>, path: seq<Step>, sink: ErrorList)
    requires schema.Obj?
    modifies sink
    ensures sink.errors == Report(old(sink.errors), PropertyErrors(o, schema, fields, path, |Properties(schema)|))
    decreases schema, 1
  {
    ghost var start := sink.errors;
    var properties := Properties(schema);
    for i := 0 to |properties|
      invariant sink.errors == Report(start, PropertyErrors(o, schema, fields, path, i))
    {
      var property := properties[i];
      ghost var more := PropertyError(o, property, fields, path);
      ReportConcat(start, PropertyErrors(o, schema, fields, path, i), more);
      if |sink.errors| >= ERROR_CAP { FullStaysFull(sink.errors, more); }
      if HasKey(fields, property.key) && property.value.Obj? && |sink.errors| < ERROR_CAP {
        ValidateSchemaNode(o, property.value, Lookup(fields, property.key), path + [Key(property.key)], sink);
      }
    }
  }

  method CheckRequired(schema: Json, fields: seq<Field>, path: seq<Step>, sink: ErrorList) returns (full: bool)
    requires schema.Obj? && |sink.errors| < ERROR_CAP
    modifies sink
    ensures sink.errors == Report(old(sink.errors), MissingErrors(RequiredKeys(schema), fields, path))
    ensures full <==> |sink.errors| >= ERROR_CAP
  {
    var required := Get(schema, "required");
    if required.Some? && required.value.Arr? {
      full := CheckKeys(required.value.items, fields, path, sink);
      return;
    }
    return false;
  }

  method CheckKeys(keys: seq<Json>, fields: seq<Field>, path: seq<Step>, sink: ErrorList) returns (full: bool)
    requires |sink.errors| < ERROR_CAP
    modifies sink
    ensures sink.errors == Report(old(sink.errors), MissingErrors(keys, fields, path))
    ensures full <==> |sink.errors| >= ERROR_CAP
  {
    ghost var start := sink.errors;
    for i := 0 to |keys|
      invariant sink.errors == Report(start, MissingErrors(keys[..i], fields, path))
      invariant |sink.errors| < ERROR_CAP
    {
      MissingStep(keys, i, fields, path, start);
      if keys[i].Str? && !HasKey(fields, keys[i].s) {
        sink.Push(path, MissingKey(keys[i].s));
        if |sink.errors| >= ERROR_CAP {
          MissingStops(keys, i + 1, |keys|, fields, path, start);
          assert keys[..|keys|] == keys;
          return true;
        }
      }
    }
    assert keys[..|keys|] == keys;
    return false;
  }

  lemma MissingStep(keys: seq<Json>, i: nat, fields: seq<Field>, path: seq<Step>, start: seq<Error>)
    requires i < |keys| && |Report(start, MissingErrors(keys[..i], fields, path))| < ERROR_CAP
    ensures Report(start, MissingErrors(keys[..i + 1], fields, path))
         == Report(start, MissingErrors(keys[..i], fields, path))
            + if keys[i].Str? && !HasKey(fields, keys[i].s) then [Error(path, MissingKey(keys[i].s))] else []
  {
    assert keys[..i + 1][..i] == keys[..i];
    var before := MissingErrors(keys[..i], fields, path);
    assert before + [] == before;
    if keys[i].Str? && !HasKey(fields, keys[i].s) {
      ReportConcat(start, before, [[Error(path, MissingKey(keys[i].s))]]);
      ReportOne(Report(start, before), [Error(path, MissingKey(keys[i].s))]);
    }
  }

  lemma MissingSnoc(keys: seq<Json>, n: nat, fields: seq<Field>, path: seq<Step>) returns (last: seq<Burst>)
    requires 0 < n <= |keys|
    ensures MissingErrors(keys[..n], fields, path) == MissingErrors(keys[..n - 1], fields, path) + last
  {
    assert keys[..n][..n - 1] == keys[..n - 1];
    last := if keys[n - 1].Str? && !HasKey(fields, keys[n - 1].s) then [[Error(path, MissingKey(keys[n - 1].s))]]
        else [];
  }

  lemma {:induction false} MissingStops(keys: seq<Json>, i: nat, n: nat, fields: seq<Field>, path: seq<Step>,
                                        start: seq<Error>)
    requires i <= n <= |keys| && |Report(start, MissingErrors(keys[..i], fields, path))| >= ERROR_CAP
    ensures Report(start, MissingErrors(keys[..n], fields, path))
        == Report(start, MissingErrors(keys[..i], fields, path))
  {
    if i < n {
      MissingStops(keys, i, n - 1, fields, path, start);
      var last := MissingSnoc(keys, n, fields, path);
      FullTakesNoMore(start, MissingErrors(keys[..n - 1], fields, path), last);
    }
  }

  method CheckAdditional(schema: Json, fields: seq<Field>, path: seq<Step>, sink: ErrorList) returns (full: bool)
    requires schema.Obj? && |sink.errors| < ERROR_CAP
    modifies sink
    ensures sink.errors
         == Report(old(sink.errors), if Closed(schema) then ExtraErrors(schema, fields, path) else [])
    ensures full <==> |sink.errors| >= ERROR_CAP
  {
    if Get(schema, "additionalProperties") == Some(Bool(false)) {
      full := CheckNames(schema, fields, path, sink);
      return;
    }
    return false;
  }

  /** What one field name adds. */
  function ExtraOne(schema: Json, key: string, path: seq<Step>): seq<Error>
    requires schema.Obj?
  {
    if !HasKey(Properties(schema), key) then [Error(path, ExtraKey(key))] else []
  }

  method CheckName(schema: Json, key: string, path: seq<Step>, sink: ErrorList)
    requires schema.Obj?
    modifies sink
    ensures sink.errors == old(sink.errors) + ExtraOne(schema, key, path)
  {
    if !HasKey(Properties(schema), key) { sink.Push(path, ExtraKey(key)); }
  }

  method CheckNames(schema: Json, fields: seq<Field>, path: seq<Step>, sink: ErrorList) returns (full: bool)
    requires schema.Obj? && |sink.errors| < ERROR_CAP
    modifies sink
    ensures sink.errors == Report(old(sink.errors), ExtraErrors(schema, fields, path))
    ensures full <==> |sink.errors| >= ERROR_CAP
  {
    ghost var start := sink.errors;
    for i := 0 to |fields|
      invariant sink.errors == Report(start, ExtraErrors(schema, fields[..i], path))
      invariant |sink.errors| < ERROR_CAP
    {
      ExtraStep(schema, fields, i, path, start);
      CheckName(schema, fields[i].key, path, sink);
      if |sink.errors| >= ERROR_CAP {
        ExtraStops(schema, fields, i + 1, |fields|, path, start);
        assert fields[..|fields|] == fields;
        return true;
      }
    }
    assert fields[..|fields|] == fields;
    return false;
  }

  lemma ExtraStep(schema: Json, fields: seq<Field>, i: nat, path: seq<Step>, start: seq<Error>)
    requires schema.Obj? && i < |fields| && |Report(start, ExtraErrors(schema, fields[..i], path))| < ERROR_CAP
    ensures Report(start, ExtraErrors(schema, fields[..i + 1], path))
         == Report(start, ExtraErrors(schema, fields[..i], path)) + ExtraOne(schema, fields[i].key, path)
  {
    assert fields[..i + 1][..i] == fields[..i];
    var before := ExtraErrors(schema, fields[..i], path);
    assert before + [] == before;
    if !HasKey(Properties(schema), fields[i].key) {
      ReportConcat(start, before, [[Error(path, ExtraKey(fields[i].key))]]);
      ReportOne(Report(start, before), [Error(path, ExtraKey(fields[i].key))]);
    }
  }

  lemma ExtraSnoc(schema: Json, fields: seq<Field>, n: nat, path: seq<Step>) returns (last: seq<Burst>)
    requires schema.Obj? && 0 < n <= |fields|
    ensures ExtraErrors(schema, fields[..n], path) == ExtraErrors(schema, fields[..n - 1], path) + last
  {
    assert fields[..n][..n - 1] == fields[..n - 1];
    var key := fields[n - 1].key;
    last := if !HasKey(Properties(schema), key) then [[Error(path, ExtraKey(key))]] else [];
  }

  lemma {:induction false} ExtraStops(schema: Json, fields: seq<Field>, i: nat, n: nat, path: seq<Step>,
                                      start: seq<Error>)
    requires schema.Obj? && i <= n <= |fields| && |Report(start, ExtraErrors(schema, fields[..i], path))| >= ERROR_CAP
    ensures Report(start, ExtraErrors(schema, fields[..n], path))
        == Report(start, ExtraErrors(schema, fields[..i], path))
  {
    if i < n {
      ExtraStops(schema, fields, i, n - 1, path, start);
      var last := ExtraSnoc(schema, fields, n, path);
      FullTakesNoMore(start, ExtraErrors(schema, fields[..n - 1], path), last);
    }
  }

  // ----- a list of eleven -----

  const NOTHING_MATCHES := Oracle((_, _) => NoMatch, _ => false)

  const ITEM_SCHEMA := Obj([Field("minLength", Num(Fin(9.0))), Field("maxLength", Num(Fin(1.0))),
                            Field("pattern", Str("p")), Field("format", Str("date-time"))])

  const LIST_SCHEMA := Obj([Field("minItems", Num(Fin(9.0))), Field("maxItems", Num(Fin(1.0))),
                            Field("uniqueItems", Bool(true)), Field("items", ITEM_SCHEMA)])

  lemma GetAt(schema: Json, i: nat)
    requires schema.Obj? && i < |schema.fields| && DistinctKeys(schema.fields)
    ensures Get(schema, schema.fields[i].key) == Some(schema.fields[i].value)
  {
    LookupAt(schema.fields, i);
  }

  /** A schema without the four keywords that judge a value as a whole. */
  predicate ChecksContentOnly(schema: Json)
    requires schema.Obj?
  {
    Get(schema, "anyOf").None? && Get(schema, "const").None? && Get(schema, "enum").None? && Get(schema, "type").None?
  }

  lemma ContentOnly(o: Oracle, schema: Json, v: Json, path: seq<Step>)
    requires schema.Obj? && ChecksContentOnly(schema)
    ensures NodeErrors(o, schema, v, path) == ContentErrors(o, schema, v, path)
  {
  }

  lemma NoWholeKeywords()
    ensures ChecksContentOnly(ITEM_SCHEMA) && ChecksContentOnly(LIST_SCHEMA)
  {
  }

  lemma ItemKeywords()
    ensures Get(ITEM_SCHEMA, "minLength") == Some(Num(Fin(9.0))) && Get(ITEM_SCHEMA, "maxLength") == Some(Num(Fin(1.0)))
    ensures Get(ITEM_SCHEMA, "pattern") == Some(Str("p")) && Get(ITEM_SCHEMA, "format") == Some(Str("date-time"))
  {
    GetAt(ITEM_SCHEMA, 0);
    GetAt(ITEM_SCHEMA, 1);
    GetAt(ITEM_SCHEMA, 2);
    GetAt(ITEM_SCHEMA, 3);
  }

  lemma FailsAllFour(o: Oracle, schema: Json, s: string, path: seq<Step>)
    requires schema.Obj? && |s| == 2 && o == NOTHING_MATCHES
    requires Get(schema, "minLength") == Some(Num(Fin(9.0))) && Get(schema, "maxLength") == Some(Num(Fin(1.0)))
    requires Get(schema, "pattern") == Some(Str("p")) && Get(schema, "format") == Some(Str("date-time"))
    ensures |StringErrors(o, schema, s, path)| == 4
  {
    assert |LengthErrors(schema, s, path)| == 2;
    assert |PatternErrors(o, schema, s, path)| == 2;
  }

  lemma FourStringErrors(path: seq<Step>)
    ensures |StringErrors(NOTHING_MATCHES, ITEM_SCHEMA, "xx", path)| == 4
  {
    ItemKeywords();
    FailsAllFour(NOTHING_MATCHES, ITEM_SCHEMA, "xx", path);
  }

  lemma ThreeArrayErrors(path: seq<Step>)
    ensures |ArrayErrors(LIST_SCHEMA, [Str("xx"), Str("xx")], path)| == 3
    ensures Get(LIST_SCHEMA, "items") == Some(ITEM_SCHEMA)
  {
    GetAt(LIST_SCHEMA, 0);
    GetAt(LIST_SCHEMA, 1);
    GetAt(LIST_SCHEMA, 2);
    GetAt(LIST_SCHEMA, 3);
    var items := [Str("xx"), Str("xx")];
    assert SchemaValuesEqual(items[0], items[1]);
    assert !Distinct(items);
  }

  lemma TwoStrings(o: Oracle, schema: Json, each: Json, s: string, t: string)
    requires schema.Obj? && each.Obj? && ChecksContentOnly(schema) && ChecksContentOnly(each)
    requires Get(schema, "items") == Some(each)
    ensures NodeErrors(o, schema, Arr([Str(s), Str(t)]), [])
         == [ArrayErrors(schema, [Str(s), Str(t)], [])]
            + [StringErrors(o, each, s, [Index(0)]), StringErrors(o, each, t, [Index(1)])]
  {
    ContentOnly(o, schema, Arr([Str(s), Str(t)]), []);
    TwoItems(o, schema, each, s, t);
    ArrayContent(o, schema, [Str(s), Str(t)], []);
  }

  lemma ArrayContent(o: Oracle, schema: Json, items: seq<Json>, path: seq<Step>)
    requires schema.Obj?
    ensures ContentErrors(o, schema, Arr(items), path)
         == [ArrayErrors(schema, items, path)] + ItemErrors(o, schema, items, path, |items|)
  {
  }

  lemma TwoItems(o: Oracle, schema: Json, each: Json, s: string, t: string)
    requires schema.Obj? && each.Obj? && ChecksContentOnly(each) && Get(schema, "items") == Some(each)
    ensures ItemErrors(o, schema, [Str(s), Str(t)], [], 2)
         == [StringErrors(o, each, s, [Index(0)]), StringErrors(o, each, t, [Index(1)])]
  {
    var items := [Str(s), Str(t)];
    ContentOnly(o, each, items[0], [Index(0)]);
    ContentOnly(o, each, items[1], [Index(1)]);
    assert [] + [Index(0)] == [Index(0)] && [] + [Index(1)] == [Index(1)];
    assert ItemErrors(o, schema, items, [], 0) == [];
    assert ItemErrors(o, schema, items, [], 1) == [] + [StringErrors(o, each, s, [Index(0)])];
  }

  lemma ReportThree(a: Burst, b: Burst, c: Burst)
    requires |a| + |b| < ERROR_CAP
    ensures Report([], [a, b, c]) == a + b + c
  {
    assert [a, b, c][..2] == [a, b] && [a, b][..1] == [a];
    ReportOne([], a);
  }

  /** An array short of its minimum and past its maximum, with two equal strings that fail every check. */
  lemma ElevenIsReached()
    ensures var v := Arr([Str("xx"), Str("xx")]);
            |Report([], NodeErrors(NOTHING_MATCHES, LIST_SCHEMA, v, []))| == 11
  {
    ThreeArrayErrors([]);
    NoWholeKeywords();
    FourStringErrors([Index(0)]);
    FourStringErrors([Index(1)]);
    ElevenFrom(NOTHING_MATCHES, LIST_SCHEMA, ITEM_SCHEMA, "xx", "xx");
  }

  lemma ElevenFrom(o: Oracle, schema: Json, each: Json, s: string, t: string)
    requires schema.Obj? && each.Obj? && ChecksContentOnly(schema) && ChecksContentOnly(each)
    requires Get(schema, "items") == Some(each) && |ArrayErrors(schema, [Str(s), Str(t)], [])| == 3
    requires |StringErrors(o, each, s, [Index(0)])| == |StringErrors(o, each, t, [Index(1)])| == 4
    ensures |Report([], NodeErrors(o, schema, Arr([Str(s), Str(t)]), []))| == ERROR_CAP + 3
  {
    var a := ArrayErrors(schema, [Str(s), Str(t)], []);
    var b, c := StringErrors(o, each, s, [Index(0)]), StringErrors(o, each, t, [Index(1)]);
    TwoStrings(o, schema, each, s, t);
    assert [a] + [b, c] == [a, b, c];
    ReportThree(a, b, c);
  }

  // ----- validity sees only what a value means -----

  lemma {:induction false} EqualValuesValidateAlike(o: Oracle, schema: Json, v: Json, w: Json)
    requires schema.Obj? && WellFormed(schema) && WellFormed(v) && WellFormed(w)
    requires SchemaValuesEqual(v, w)
    ensures Satisfies(o, schema, v) <==> Satisfies(o, schema, w)
    decreases schema, 1
  {
    var anyOf := Get(schema, "anyOf");
    if anyOf.Some? && anyOf.value.Arr? {
      forall i | 0 <= i < |anyOf.value.items| && anyOf.value.items[i].Obj?
        ensures Satisfies(o, anyOf.value.items[i], v) <==> Satisfies(o, anyOf.value.items[i], w)
      {
        EqualValuesValidateAlike(o, anyOf.value.items[i], v, w);
      }
    } else {
      ConstantsAlike(schema, v, w);
      match (v, w) {
        case (Arr(a), Arr(b)) => ArraysAlike(o, schema, a, b);
        case (Obj(f), Obj(g)) => ObjectsAlike(o, schema, f, g);
        case _ => assert v == w;
      }
    }
  }

  lemma ConstantsAlike(schema: Json, v: Json, w: Json)
    requires schema.Obj? && WellFormed(schema) && WellFormed(v) && WellFormed(w) && SchemaValuesEqual(v, w)
    ensures ConstOk(schema, v) <==> ConstOk(schema, w)
    ensures EnumOk(schema, v) <==> EnumOk(schema, w)
  {
    var c := Get(schema, "const");
    if c.Some? {
      EqualIffSameMeaning(v, w);
      EqualIffSameMeaning(c.value, v);
      EqualIffSameMeaning(c.value, w);
    }
    var e := Get(schema, "enum");
    if e.Some? && e.value.Arr? {
      EqualIffSameMeaning(v, w);
      forall i | 0 <= i < |e.value.items|
        ensures SchemaValuesEqual(e.value.items[i], v) <==> SchemaValuesEqual(e.value.items[i], w)
      {
        EqualIffSameMeaning(e.value.items[i], v);
        EqualIffSameMeaning(e.value.items[i], w);
      }
    }
  }

  lemma {:induction false} ArraysAlike(o: Oracle, schema: Json, a: seq<Json>, b: seq<Json>)
    requires schema.Obj? && WellFormed(schema) && WellFormed(Arr(a)) && WellFormed(Arr(b))
    requires SchemaValuesEqual(Arr(a), Arr(b))
    ensures ArrayOk(o, schema, a) <==> ArrayOk(o, schema, b)
    decreases schema, 0
  {
    forall i, j | 0 <= i < j < |a| ensures SchemaValuesEqual(a[i], a[j]) <==> SchemaValuesEqual(b[i], b[j]) {
      EqualIffSameMeaning(a[i], b[i]);
      EqualIffSameMeaning(a[j], b[j]);
      EqualIffSameMeaning(a[i], a[j]);
      EqualIffSameMeaning(b[i], b[j]);
    }
    assert Distinct(a) <==> Distinct(b);
    var each := Get(schema, "items");
    if each.Some? && each.value.Obj? {
      forall i | 0 <= i < |a| ensures Satisfies(o, each.value, a[i]) <==> Satisfies(o, each.value, b[i]) {
        EqualValuesValidateAlike(o, each.value, a[i], b[i]);
      }
    }
  }

  lemma {:induction false} ObjectsAlike(o: Oracle, schema: Json, f: seq<Field>, g: seq<Field>)
    requires schema.Obj? && WellFormed(schema) && WellFormed(Obj(f)) && WellFormed(Obj(g))
    requires SchemaValuesEqual(Obj(f), Obj(g))
    ensures ObjectOk(o, schema, f) <==> ObjectOk(o, schema, g)
    decreases schema, 0
  {
    EqualObjectsSameKeys(f, g);
    SameKeysSameChecks(schema, f, g);
    var properties := Properties(schema);
    forall i | 0 <= i < |properties| ensures PropertyOk(o, properties[i], f) <==> PropertyOk(o, properties[i], g) {
      PropertyAlike(o, properties[i], f, g);
    }
  }

  lemma EqualObjectsSameKeys(f: seq<Field>, g: seq<Field>)
    requires WellFormed(Obj(f)) && WellFormed(Obj(g)) && SchemaValuesEqual(Obj(f), Obj(g))
    ensures Keys(f) == Keys(g)
  {
    EqualIffSameMeaning(Obj(f), Obj(g));
    assert Keys(f) == Meaning(Obj(f)).entries.Keys;
  }

  lemma {:induction false} PropertyAlike(o: Oracle, p: Field, f: seq<Field>, g: seq<Field>)
    requires WellFormed(p.value) && WellFormed(Obj(f)) && WellFormed(Obj(g))
    requires SchemaValuesEqual(Obj(f), Obj(g))
    ensures PropertyOk(o, p, f) <==> PropertyOk(o, p, g)
    decreases p.value, 2
  {
    EqualIffSameMeaning(Obj(f), Obj(g));
    var entries := Meaning(Obj(f)).entries;
    assert HasKey(f, p.key) <==> p.key in entries;
    assert HasKey(g, p.key) <==> p.key in Meaning(Obj(g)).entries;
    if HasKey(f, p.key) && p.value.Obj? {
      var x, y := Lookup(f, p.key), Lookup(g, p.key);
      assert Meaning(x) == entries[p.key] == Meaning(y);
      EqualIffSameMeaning(x, y);
      EqualValuesValidateAlike(o, p.value, x, y);
    }
  }

  lemma SameKeysSameChecks(schema: Json, f: seq<Field>, g: seq<Field>)
    requires schema.Obj? && Keys(f) == Keys(g)
    ensures RequiredOk(schema, f) <==> RequiredOk(schema, g)
    ensures AdditionalOk(schema, f) <==> AdditionalOk(schema, g)
  {
    forall k: string ensures HasKey(f, k) <==> HasKey(g, k) {
      assert HasKey(f, k) <==> k in Keys(f);
      assert HasKey(g, k) <==> k in Keys(g);
    }
    forall h: seq<Field> | h == f || h == g
      ensures (forall i :: 0 <= i < |h| ==> HasKey(Properties(schema), h[i].key))
          <==> forall k :: k in Keys(h) ==> HasKey(Properties(schema), k)
    {
      forall i | 0 <= i < |h| ensures h[i].key in Keys(h) {
      }
    }
  }
}
