/** What each keyword of a schema asks for by itself, and that a schema asks for all of them. */
module SchemaKeywords {
  import opened Json
  import opened Options
  import opened SchemaValidator

  /** A schema of one keyword. */
  function Sole(key: string, value: Json): (schema: Json)
    ensures schema.Obj?
  {
    Obj([Field(key, value)])
  }

  /** Numbers that JSON has none for satisfy no schema. */
  predicate Ordinary(v: Json) { v.Num? ==> v.n.Fin? || v.n.NegZero? }

  lemma SoleGet(key: string, value: Json, other: string)
    ensures Get(Sole(key, value), other) == if other == key then Some(value) else None
  {
    var f := Sole(key, value).fields;
    assert f[0].key == key;
    assert HasKey(f, other) <==> other == key;
    if other == key { LookupAt(f, 0); }
  }

  // ----- type -----

  /** With nothing but a type to look at. */
  lemma SoleType(o: Oracle, t: Json, v: Json)
    ensures Satisfies(o, Sole("type", t), v) <==> MatchesDeclaredType(t, v) && Ordinary(v)
  {
    var s := Sole("type", t);
    SoleGet("type", t, "anyOf");
    SoleGet("type", t, "const");
    SoleGet("type", t, "enum");
    SoleGet("type", t, "type");
    ContentFree(o, s, v, "type", t);
  }

  /** A keyword that says nothing of what is in a value. */
  predicate OfTheWhole(key: string) { key in {"type", "const", "enum"} }

  lemma ContentFree(o: Oracle, s: Json, v: Json, key: string, value: Json)
    requires s == Sole(key, value) && OfTheWhole(key)
    ensures ContentOk(o, s, v) <==> Ordinary(v)
  {
    match v
    case Str(_) =>
      SoleGet(key, value, "minLength");
      SoleGet(key, value, "maxLength");
      SoleGet(key, value, "pattern");
      SoleGet(key, value, "format");
    case Num(_) =>
      SoleGet(key, value, "minimum");
      SoleGet(key, value, "maximum");
    case Arr(_) =>
      SoleGet(key, value, "minItems");
      SoleGet(key, value, "maxItems");
      SoleGet(key, value, "uniqueItems");
      SoleGet(key, value, "items");
      assert ItemsOk(o, s, v.items);
    case Obj(_) =>
      SoleGet(key, value, "required");
      SoleGet(key, value, "additionalProperties");
      SoleGet(key, value, "properties");
    case _ =>
  }

  /** The seven type words. */
  lemma TypeWordIff(o: Oracle, v: Json)
    ensures Satisfies(o, Sole("type", Str("null")), v) <==> v.Null?
    ensures Satisfies(o, Sole("type", Str("object")), v) <==> v.Obj?
    ensures Satisfies(o, Sole("type", Str("array")), v) <==> v.Arr?
    ensures Satisfies(o, Sole("type", Str("string")), v) <==> v.Str?
    ensures Satisfies(o, Sole("type", Str("boolean")), v) <==> v.Bool?
    ensures Satisfies(o, Sole("type", Str("number")), v) <==> v.Num? && (v.n.Fin? || v.n.NegZero?)
    ensures Satisfies(o, Sole("type", Str("integer")), v) <==> v.Num? && IsWhole(v.n)
  {
    WordIff(o, "null", v);
    WordIff(o, "object", v);
    WordIff(o, "array", v);
    WordIff(o, "string", v);
    WordIff(o, "boolean", v);
    WordIff(o, "number", v);
    WordIff(o, "integer", v);
  }

  /** The values of a type word. */
  predicate OfWord(word: string, v: Json) {
    || (word == "null" && v.Null?) || (word == "object" && v.Obj?) || (word == "array" && v.Arr?)
    || (word == "string" && v.Str?) || (word == "boolean" && v.Bool?)
    || (word == "number" && v.Num? && Ordinary(v)) || (word == "integer" && v.Num? && IsWhole(v.n))
  }

  function WholeNumber(k: int): Number { Fin(k as real) }

  predicate IsWhole(n: Number) { n.NegZero? || (n.Fin? && n == WholeNumber(n.value.Floor)) }

  lemma WholeIff(n: Number)
    ensures IsWhole(n) <==> n.NegZero? || exists k: int :: n == WholeNumber(k)
  {
    if k: int :| n == WholeNumber(k) { assert (k as real).Floor == k; }
  }

  /** A word that is none of the seven is satisfied by nothing. */
  lemma WordIff(o: Oracle, word: string, v: Json)
    ensures Satisfies(o, Sole("type", Str(word)), v) <==> OfWord(word, v)
  {
    SoleType(o, Str(word), v);
    WordType(word, v);
  }

  lemma WordType(word: string, v: Json)
    ensures IsType(Str(word), v) && Ordinary(v) <==> OfWord(word, v)
  {
  }

  /** A list of words asks for one of them. */
  lemma TypeListIff(o: Oracle, words: seq<string>, list: seq<Json>, v: Json)
    requires |list| == |words| && forall i :: 0 <= i < |list| ==> list[i] == Str(words[i])
    ensures Satisfies(o, Sole("type", Arr(list)), v)
            <==> exists i :: 0 <= i < |words| && Satisfies(o, Sole("type", Str(words[i])), v)
  {
    SoleType(o, Arr(list), v);
    forall i | 0 <= i < |words|
      ensures Satisfies(o, Sole("type", Str(words[i])), v) <==> IsType(list[i], v) && Ordinary(v)
    {
      SoleType(o, Str(words[i]), v);
    }
  }

  // ----- const and enum -----

  lemma ConstIff(o: Oracle, c: Json, v: Json)
    ensures Satisfies(o, Sole("const", c), v) <==> SchemaValuesEqual(c, v) && Ordinary(v)
  {
    SoleGet("const", c, "anyOf");
    SoleGet("const", c, "const");
    SoleGet("const", c, "enum");
    SoleGet("const", c, "type");
    ContentFree(o, Sole("const", c), v, "const", c);
  }

  /** An enumeration asks for one of its values. */
  lemma EnumIff(o: Oracle, list: seq<Json>, v: Json)
    ensures Satisfies(o, Sole("enum", Arr(list)), v)
            <==> (exists i :: 0 <= i < |list| && SchemaValuesEqual(list[i], v)) && Ordinary(v)
  {
    SoleGet("enum", Arr(list), "anyOf");
    SoleGet("enum", Arr(list), "const");
    SoleGet("enum", Arr(list), "enum");
    SoleGet("enum", Arr(list), "type");
    ContentFree(o, Sole("enum", Arr(list)), v, "enum", Arr(list));
  }

  // ----- keywords of the contents -----

  predicate OfContents(key: string) { key !in {"anyOf", "const", "enum", "type"} }

  lemma SoleContent(o: Oracle, key: string, x: Json, v: Json)
    requires OfContents(key)
    ensures Satisfies(o, Sole(key, x), v) <==> ContentOk(o, Sole(key, x), v)
  {
    SoleGet(key, x, "anyOf");
    SoleGet(key, x, "const");
    SoleGet(key, x, "enum");
    SoleGet(key, x, "type");
  }

  predicate OfStrings(key: string) { key in {"minLength", "maxLength", "pattern", "format"} }

  predicate OfNumbers(key: string) { key in {"minimum", "maximum"} }

  predicate OfArrays(key: string) { key in {"minItems", "maxItems", "uniqueItems", "items"} }

  predicate OfObjects(key: string) { key in {"required", "properties", "additionalProperties"} }

  /** A keyword has no say on values of another kind. */
  lemma StringsFree(o: Oracle, key: string, x: Json, v: Json)
    requires OfContents(key) && !OfStrings(key) && v.Str?
    ensures Satisfies(o, Sole(key, x), v)
  {
    SoleContent(o, key, x, v);
    SoleGet(key, x, "minLength");
    SoleGet(key, x, "maxLength");
    SoleGet(key, x, "pattern");
    SoleGet(key, x, "format");
  }

  lemma NumbersFree(o: Oracle, key: string, x: Json, v: Json)
    requires OfContents(key) && !OfNumbers(key) && v.Num?
    ensures Satisfies(o, Sole(key, x), v) <==> Ordinary(v)
  {
    SoleContent(o, key, x, v);
    SoleGet(key, x, "minimum");
    SoleGet(key, x, "maximum");
  }

  lemma ArraysFree(o: Oracle, key: string, x: Json, v: Json)
    requires OfContents(key) && !OfArrays(key) && v.Arr?
    ensures Satisfies(o, Sole(key, x), v)
  {
    SoleContent(o, key, x, v);
    SoleGet(key, x, "minItems");
    SoleGet(key, x, "maxItems");
    SoleGet(key, x, "uniqueItems");
    SoleGet(key, x, "items");
    assert ItemsOk(o, Sole(key, x), v.items);
  }

  lemma ObjectsFree(o: Oracle, key: string, x: Json, v: Json)
    requires OfContents(key) && !OfObjects(key) && v.Obj?
    ensures Satisfies(o, Sole(key, x), v)
  {
    SoleContent(o, key, x, v);
    SoleGet(key, x, "required");
    SoleGet(key, x, "additionalProperties");
    SoleGet(key, x, "properties");
  }

  lemma OthersFree(o: Oracle, key: string, x: Json, v: Json)
    requires OfContents(key) && (v.Null? || v.Bool?)
    ensures Satisfies(o, Sole(key, x), v)
  {
    SoleContent(o, key, x, v);
  }

  /** A keyword about strings, numbers, arrays or objects lets every ordinary value of another kind pass. */
  lemma OtherKindsPass(o: Oracle, key: string, x: Json, v: Json)
    requires OfContents(key)
    requires !(v.Str? && OfStrings(key)) && !(v.Num? && OfNumbers(key))
    requires !(v.Arr? && OfArrays(key)) && !(v.Obj? && OfObjects(key))
    ensures Satisfies(o, Sole(key, x), v) <==> Ordinary(v)
  {
    match v
    case Str(_) => StringsFree(o, key, x, v);
    case Num(_) => NumbersFree(o, key, x, v);
    case Arr(_) => ArraysFree(o, key, x, v);
    case Obj(_) => ObjectsFree(o, key, x, v);
    case _ => OthersFree(o, key, x, v);
  }

  // ----- bounds -----

  lemma LessIff(k: int, n: nat)
    ensures Less(Count(n), WholeNumber(k)) <==> n < k
    ensures Less(WholeNumber(k), Count(n)) <==> k < n
  {
  }

  /** Lengths are bounded from below and above, both included; a bound that is no number is none. */
  lemma LengthIff(o: Oracle, k: int, x: Json, s: string)
    ensures Satisfies(o, Sole("minLength", Num(WholeNumber(k))), Str(s)) <==> k <= |s|
    ensures Satisfies(o, Sole("maxLength", Num(WholeNumber(k))), Str(s)) <==> |s| <= k
    ensures !x.Num? ==> Satisfies(o, Sole("minLength", x), Str(s)) && Satisfies(o, Sole("maxLength", x), Str(s))
  {
    LessIff(k, |s|);
    LengthBound(o, "minLength", Num(WholeNumber(k)), s);
    LengthBound(o, "maxLength", Num(WholeNumber(k)), s);
    LengthBound(o, "minLength", x, s);
    LengthBound(o, "maxLength", x, s);
  }

  lemma LengthBound(o: Oracle, key: string, x: Json, s: string)
    requires key in {"minLength", "maxLength"}
    ensures Satisfies(o, Sole(key, x), Str(s))
            <==> (x.Num? ==> if key == "minLength" then !Less(Count(|s|), x.n) else !Less(x.n, Count(|s|)))
  {
    SoleContent(o, key, x, Str(s));
    SoleGet(key, x, "minLength");
    SoleGet(key, x, "maxLength");
    SoleGet(key, x, "pattern");
    SoleGet(key, x, "format");
  }

  /** So are the counts of items. */
  lemma ItemCountIff(o: Oracle, k: int, x: Json, items: seq<Json>)
    ensures Satisfies(o, Sole("minItems", Num(WholeNumber(k))), Arr(items)) <==> k <= |items|
    ensures Satisfies(o, Sole("maxItems", Num(WholeNumber(k))), Arr(items)) <==> |items| <= k
    ensures !x.Num? ==> Satisfies(o, Sole("minItems", x), Arr(items)) && Satisfies(o, Sole("maxItems", x), Arr(items))
  {
    LessIff(k, |items|);
    ItemBound(o, "minItems", Num(WholeNumber(k)), items);
    ItemBound(o, "maxItems", Num(WholeNumber(k)), items);
    ItemBound(o, "minItems", x, items);
    ItemBound(o, "maxItems", x, items);
  }

  lemma ItemBound(o: Oracle, key: string, x: Json, items: seq<Json>)
    requires key in {"minItems", "maxItems"}
    ensures Satisfies(o, Sole(key, x), Arr(items))
            <==> (x.Num? ==> if key == "minItems" then !Less(Count(|items|), x.n) else !Less(x.n, Count(|items|)))
  {
    SoleContent(o, key, x, Arr(items));
    SoleGet(key, x, "minItems");
    SoleGet(key, x, "maxItems");
    SoleGet(key, x, "uniqueItems");
    SoleGet(key, x, "items");
    assert ItemsOk(o, Sole(key, x), items);
  }

  /** What a finite number comes to; both zeros are one. */
  function Size(n: Number): real { if n.Fin? then n.value else 0.0 }

  /** And the numbers themselves. */
  lemma NumberRangeIff(o: Oracle, b: Number, n: Number)
    requires b.Fin? || b.NegZero?
    ensures Satisfies(o, Sole("minimum", Num(b)), Num(n)) <==> (n.Fin? || n.NegZero?) && Size(b) <= Size(n)
    ensures Satisfies(o, Sole("maximum", Num(b)), Num(n)) <==> (n.Fin? || n.NegZero?) && Size(n) <= Size(b)
  {
    NumberBound(o, "minimum", Num(b), n);
    NumberBound(o, "maximum", Num(b), n);
  }

  /** A bound beyond all numbers is met by all or by none, and one that is not a number is none. */
  lemma EndlessBounds(o: Oracle, n: Number)
    requires n.Fin? || n.NegZero?
    ensures Satisfies(o, Sole("minimum", Num(NegInf)), Num(n)) && !Satisfies(o, Sole("minimum", Num(PosInf)), Num(n))
    ensures Satisfies(o, Sole("maximum", Num(PosInf)), Num(n)) && !Satisfies(o, Sole("maximum", Num(NegInf)), Num(n))
    ensures Satisfies(o, Sole("minimum", Num(NaN)), Num(n)) && Satisfies(o, Sole("maximum", Num(NaN)), Num(n))
  {
    NumberBound(o, "minimum", Num(NegInf), n);
    NumberBound(o, "minimum", Num(PosInf), n);
    NumberBound(o, "minimum", Num(NaN), n);
    NumberBound(o, "maximum", Num(NegInf), n);
    NumberBound(o, "maximum", Num(PosInf), n);
    NumberBound(o, "maximum", Num(NaN), n);
  }

  lemma NumberBound(o: Oracle, key: string, x: Json, n: Number)
    requires key in {"minimum", "maximum"}
    ensures Satisfies(o, Sole(key, x), Num(n))
            <==> (n.Fin? || n.NegZero?) && (x.Num? ==> if key == "minimum" then !Less(n, x.n) else !Less(x.n, n))
  {
    SoleContent(o, key, x, Num(n));
    SoleGet(key, x, "minimum");
    SoleGet(key, x, "maximum");
  }

  // ----- patterns and formats -----

  lemma PatternIff(o: Oracle, x: Json, s: string)
    ensures Satisfies(o, Sole("pattern", x), Str(s)) <==> (x.Str? ==> o.pattern(x.s, s) == Matches)
  {
    SoleContent(o, "pattern", x, Str(s));
    SoleGet("pattern", x, "minLength");
    SoleGet("pattern", x, "maxLength");
    SoleGet("pattern", x, "pattern");
    SoleGet("pattern", x, "format");
  }

  /** Of the formats only date-time is looked at. */
  lemma FormatIff(o: Oracle, x: Json, s: string)
    ensures Satisfies(o, Sole("format", x), Str(s)) <==> (x == Str("date-time") ==> o.instant(s))
  {
    SoleContent(o, "format", x, Str(s));
    SoleGet("format", x, "minLength");
    SoleGet("format", x, "maxLength");
    SoleGet("format", x, "pattern");
    SoleGet("format", x, "format");
  }

  // ----- items -----

  lemma ArrayGets(key: string, x: Json)
    ensures var s := Sole(key, x);
            && Get(s, "minItems") == (if key == "minItems" then Some(x) else None)
            && Get(s, "maxItems") == (if key == "maxItems" then Some(x) else None)
            && Get(s, "uniqueItems") == (if key == "uniqueItems" then Some(x) else None)
            && Get(s, "items") == (if key == "items" then Some(x) else None)
  {
    SoleGet(key, x, "minItems");
    SoleGet(key, x, "maxItems");
    SoleGet(key, x, "uniqueItems");
    SoleGet(key, x, "items");
  }

  /** No two items are equal, whatever their order of keys. */
  lemma UniqueIff(o: Oracle, x: Json, items: seq<Json>)
    ensures Satisfies(o, Sole("uniqueItems", x), Arr(items))
            <==> (x == Bool(true) ==> forall i, j :: 0 <= i < j < |items| ==> !SchemaValuesEqual(items[i], items[j]))
  {
    SoleContent(o, "uniqueItems", x, Arr(items));
    ArrayGets("uniqueItems", x);
    assert ItemsOk(o, Sole("uniqueItems", x), items);
  }

  /** A schema for the items is satisfied by each of them. */
  lemma ItemsIff(o: Oracle, x: Json, items: seq<Json>)
    ensures Satisfies(o, Sole("items", x), Arr(items))
            <==> (x.Obj? ==> forall i :: 0 <= i < |items| ==> Satisfies(o, x, items[i]))
  {
    SoleContent(o, "items", x, Arr(items));
    ArrayGets("items", x);
    assert ItemsOk(o, Sole("items", x), items)
           <==> (x.Obj? ==> forall i :: 0 <= i < |items| ==> Satisfies(o, x, items[i]));
  }

  // ----- properties -----

  predicate Occurs(fields: seq<Field>, key: string) { exists i :: 0 <= i < |fields| && fields[i].key == key }

  lemma ObjectGets(key: string, x: Json)
    ensures var s := Sole(key, x);
            && Get(s, "required") == (if key == "required" then Some(x) else None)
            && Get(s, "additionalProperties") == (if key == "additionalProperties" then Some(x) else None)
            && Get(s, "properties") == (if key == "properties" then Some(x) else None)
  {
    SoleGet(key, x, "required");
    SoleGet(key, x, "additionalProperties");
    SoleGet(key, x, "properties");
  }

  /** Every required key occurs. */
  lemma RequiredIff(o: Oracle, keys: seq<Json>, fields: seq<Field>)
    ensures Satisfies(o, Sole("required", Arr(keys)), Obj(fields))
            <==> forall i :: 0 <= i < |keys| && keys[i].Str? ==> Occurs(fields, keys[i].s)
  {
    var x := Arr(keys);
    SoleContent(o, "required", x, Obj(fields));
    ObjectGets("required", x);
    forall key ensures HasKey(fields, key) <==> Occurs(fields, key) {}
    assert Properties(Sole("required", x)) == [];
  }

  predicate Declares(property: Field, field: Field) { property.key == field.key && property.value.Obj? }

  /** The value of a declared key satisfies its schema, when the key occurs and the schema is one. */
  lemma PropertiesIff(o: Oracle, declared: seq<Field>, fields: seq<Field>)
    requires DistinctKeys(fields)
    ensures Satisfies(o, Sole("properties", Obj(declared)), Obj(fields))
            <==> forall i, j :: 0 <= i < |declared| && 0 <= j < |fields| && Declares(declared[i], fields[j]) ==>
                   Satisfies(o, declared[i].value, fields[j].value)
  {
    SoleContent(o, "properties", Obj(declared), Obj(fields));
    ObjectGets("properties", Obj(declared));
    forall j | 0 <= j < |fields|
      ensures HasKey(fields, fields[j].key) && Lookup(fields, fields[j].key) == fields[j].value
    {
      LookupAt(fields, j);
    }
    assert Properties(Sole("properties", Obj(declared))) == declared;
    forall i | 0 <= i < |declared|
      ensures PropertyOk(o, declared[i], fields)
              <==> forall j :: 0 <= j < |fields| && Declares(declared[i], fields[j]) ==>
                     Satisfies(o, declared[i].value, fields[j].value)
    {
    }
  }

  /** Without declared keys a closed object is empty; with them it has no other keys. */
  function ClosedSchema(declared: seq<Field>): Json {
    Obj([Field("properties", Obj(declared)), Field("additionalProperties", Bool(false))])
  }

  lemma ClosedGets(declared: seq<Field>, key: string)
    ensures var s := ClosedSchema(declared);
            Get(s, key) == if key == "properties" then Some(Obj(declared))
                           else if key == "additionalProperties" then Some(Bool(false)) else None
  {
    var f := ClosedSchema(declared).fields;
    assert f[0].key == "properties" && f[1].key == "additionalProperties" && DistinctKeys(f);
    LookupAt(f, 0);
    LookupAt(f, 1);
    assert HasKey(f, key) ==> key == f[0].key || key == f[1].key;
  }

  lemma ClosedIff(o: Oracle, declared: seq<Field>, fields: seq<Field>)
    ensures Satisfies(o, ClosedSchema(declared), Obj(fields))
            <==> Satisfies(o, Sole("properties", Obj(declared)), Obj(fields))
                 && forall j :: 0 <= j < |fields| ==> Occurs(declared, fields[j].key)
  {
    var s, t := ClosedSchema(declared), Sole("properties", Obj(declared));
    ClosedGets(declared, "anyOf");
    ClosedGets(declared, "const");
    ClosedGets(declared, "enum");
    ClosedGets(declared, "type");
    ClosedGets(declared, "required");
    ClosedGets(declared, "properties");
    ClosedGets(declared, "additionalProperties");
    SoleContent(o, "properties", Obj(declared), Obj(fields));
    ObjectGets("properties", Obj(declared));
    assert Properties(s) == declared == Properties(t);
    assert Satisfies(o, s, Obj(fields)) <==> ObjectOk(o, s, fields);
    forall key ensures HasKey(declared, key) <==> Occurs(declared, key) {}
  }

  // ----- alternatives -----

  /** A list of alternatives is all that is looked at: one of them is satisfied. */
  lemma AnyOfIff(o: Oracle, schema: Json, list: seq<Json>, v: Json)
    requires schema.Obj? && Get(schema, "anyOf") == Some(Arr(list))
    ensures Satisfies(o, schema, v) <==> exists i :: 0 <= i < |list| && list[i].Obj? && Satisfies(o, list[i], v)
  {
  }

  // ----- all keywords together -----

  /** The keyword, if the schema has it, is satisfied by itself. */
  predicate Asks(o: Oracle, schema: Json, key: string, v: Json)
    requires schema.Obj?
  {
    Get(schema, key).Some? ==> Satisfies(o, Sole(key, Get(schema, key).value), v)
  }

  lemma WholeAsks(o: Oracle, schema: Json, v: Json)
    requires schema.Obj? && Ordinary(v)
    ensures Asks(o, schema, "const", v) <==> ConstOk(schema, v)
    ensures Asks(o, schema, "enum", v) <==> EnumOk(schema, v)
    ensures Asks(o, schema, "type", v) <==> TypeOk(schema, v)
  {
    var c, e, t := Get(schema, "const"), Get(schema, "enum"), Get(schema, "type");
    if c.Some? { ConstIff(o, c.value, v); }
    if e.Some? { EnumAsks(o, e.value, v); }
    if t.Some? { SoleType(o, t.value, v); }
  }

  lemma EnumAsks(o: Oracle, x: Json, v: Json)
    requires Ordinary(v)
    ensures Satisfies(o, Sole("enum", x), v)
            <==> (x.Arr? ==> exists i :: 0 <= i < |x.items| && SchemaValuesEqual(x.items[i], v))
  {
    if x.Arr? {
      EnumIff(o, x.items, v);
    } else {
      SoleGet("enum", x, "anyOf");
      SoleGet("enum", x, "const");
      SoleGet("enum", x, "enum");
      SoleGet("enum", x, "type");
      ContentFree(o, Sole("enum", x), v, "enum", x);
    }
  }

  lemma BoundAsks(o: Oracle, schema: Json, key: string, v: Json)
    requires schema.Obj?
    ensures v.Str? && key == "minLength" ==> (Asks(o, schema, key, v) <==> !Under(schema, key, Count(|v.s|)))
    ensures v.Str? && key == "maxLength" ==> (Asks(o, schema, key, v) <==> !Over(schema, key, Count(|v.s|)))
    ensures v.Arr? && key == "minItems" ==> (Asks(o, schema, key, v) <==> !Under(schema, key, Count(|v.items|)))
    ensures v.Arr? && key == "maxItems" ==> (Asks(o, schema, key, v) <==> !Over(schema, key, Count(|v.items|)))
    ensures v.Num? && Ordinary(v) && key == "minimum" ==> (Asks(o, schema, key, v) <==> !Under(schema, key, v.n))
    ensures v.Num? && Ordinary(v) && key == "maximum" ==> (Asks(o, schema, key, v) <==> !Over(schema, key, v.n))
  {
    var b := Get(schema, key);
    if b.Some? {
      if v.Str? && key in {"minLength", "maxLength"} { LengthBound(o, key, b.value, v.s); }
      if v.Arr? && key in {"minItems", "maxItems"} { ItemBound(o, key, b.value, v.items); }
      if v.Num? && key in {"minimum", "maximum"} { NumberBound(o, key, b.value, v.n); }
    }
  }

  lemma StringAsks(o: Oracle, schema: Json, v: Json)
    requires schema.Obj? && v.Str?
    ensures StringOk(o, schema, v.s)
            <==> Asks(o, schema, "minLength", v) && Asks(o, schema, "maxLength", v) && Asks(o, schema, "pattern", v)
                 && Asks(o, schema, "format", v)
  {
    BoundAsks(o, schema, "minLength", v);
    BoundAsks(o, schema, "maxLength", v);
    var p, f := Get(schema, "pattern"), Get(schema, "format");
    if p.Some? { PatternIff(o, p.value, v.s); }
    if f.Some? { FormatIff(o, f.value, v.s); }
  }

  lemma NumberAsks(o: Oracle, schema: Json, v: Json)
    requires schema.Obj? && v.Num? && Ordinary(v)
    ensures NumberOk(schema, v.n) <==> Asks(o, schema, "minimum", v) && Asks(o, schema, "maximum", v)
  {
    BoundAsks(o, schema, "minimum", v);
    BoundAsks(o, schema, "maximum", v);
  }

  lemma ArrayAsks(o: Oracle, schema: Json, v: Json)
    requires schema.Obj? && v.Arr?
    ensures ArrayOk(o, schema, v.items)
            <==> Asks(o, schema, "minItems", v) && Asks(o, schema, "maxItems", v)
                 && Asks(o, schema, "uniqueItems", v) && Asks(o, schema, "items", v)
  {
    BoundAsks(o, schema, "minItems", v);
    BoundAsks(o, schema, "maxItems", v);
    var u, each := Get(schema, "uniqueItems"), Get(schema, "items");
    if u.Some? { UniqueIff(o, u.value, v.items); }
    if each.Some? { ItemsIff(o, each.value, v.items); }
    assert ItemsOk(o, schema, v.items) <==> Asks(o, schema, "items", v);
  }

  /** A schema that says so lets no other keys in than those it declares. */
  predicate Closes(schema: Json, v: Json)
    requires schema.Obj?
  {
    v.Obj? && Get(schema, "additionalProperties") == Some(Bool(false)) ==>
      forall j :: 0 <= j < |v.fields| ==> Occurs(Properties(schema), v.fields[j].key)
  }

  lemma RequiredAsks(o: Oracle, schema: Json, v: Json)
    requires schema.Obj? && v.Obj?
    ensures Asks(o, schema, "required", v) <==> RequiredOk(schema, v.fields)
  {
    var r := Get(schema, "required");
    if r.Some? {
      if r.value.Arr? {
        RequiredIff(o, r.value.items, v.fields);
        forall key ensures HasKey(v.fields, key) <==> Occurs(v.fields, key) {}
      } else {
        SoleContent(o, "required", r.value, v);
        ObjectGets("required", r.value);
      }
    }
  }

  lemma PropertiesAsk(o: Oracle, schema: Json, v: Json)
    requires schema.Obj? && v.Obj?
    ensures Asks(o, schema, "properties", v)
            <==> forall i :: 0 <= i < |Properties(schema)| ==> PropertyOk(o, Properties(schema)[i], v.fields)
  {
    var p := Get(schema, "properties");
    if p.Some? {
      SoleContent(o, "properties", p.value, v);
      ObjectGets("properties", p.value);
      assert Properties(Sole("properties", p.value)) == Properties(schema);
    }
  }

  lemma ObjectAsks(o: Oracle, schema: Json, v: Json)
    requires schema.Obj? && v.Obj?
    ensures ObjectOk(o, schema, v.fields)
            <==> Asks(o, schema, "required", v) && Asks(o, schema, "properties", v) && Closes(schema, v)
  {
    RequiredAsks(o, schema, v);
    PropertiesAsk(o, schema, v);
    forall key ensures HasKey(Properties(schema), key) <==> Occurs(Properties(schema), key) {}
  }

  /** A keyword of another kind of value asks nothing. */
  lemma OtherKindAsks(o: Oracle, schema: Json, key: string, v: Json)
    requires schema.Obj? && Ordinary(v) && OfContents(key)
    requires !(v.Str? && OfStrings(key)) && !(v.Num? && OfNumbers(key))
    requires !(v.Arr? && OfArrays(key)) && !(v.Obj? && OfObjects(key))
    ensures Asks(o, schema, key, v)
  {
    if Get(schema, key).Some? { OtherKindsPass(o, key, Get(schema, key).value, v); }
  }

  /** The keywords about strings, numbers, arrays and objects; additionalProperties goes with properties. */
  predicate AboutContents(key: string) {
    OfStrings(key) || OfNumbers(key) || OfArrays(key) || (OfObjects(key) && key != "additionalProperties")
  }

  ghost predicate ContentAsked(o: Oracle, schema: Json, v: Json)
    requires schema.Obj?
  {
    forall key :: AboutContents(key) ==> Asks(o, schema, key, v)
  }

  lemma ContentAsks(o: Oracle, schema: Json, v: Json)
    requires schema.Obj? && Ordinary(v)
    ensures ContentOk(o, schema, v) <==> ContentAsked(o, schema, v) && Closes(schema, v)
  {
    forall key | AboutContents(key) && OtherKind(key, v) ensures Asks(o, schema, key, v) {
      OtherKindAsks(o, schema, key, v);
    }
    match v
    case Str(_) =>
      StringAsks(o, schema, v);
      assert forall key :: AboutContents(key) && !OtherKind(key, v) ==> OfStrings(key);
    case Num(_) =>
      NumberAsks(o, schema, v);
      assert forall key :: AboutContents(key) && !OtherKind(key, v) ==> OfNumbers(key);
    case Arr(_) =>
      ArrayAsks(o, schema, v);
      assert forall key :: AboutContents(key) && !OtherKind(key, v) ==> OfArrays(key);
    case Obj(_) =>
      ObjectAsks(o, schema, v);
      assert forall key :: AboutContents(key) && !OtherKind(key, v) ==> OfObjects(key);
    case _ =>
  }

  predicate OtherKind(key: string, v: Json) {
    && !(v.Str? && OfStrings(key)) && !(v.Num? && OfNumbers(key))
    && !(v.Arr? && OfArrays(key)) && !(v.Obj? && OfObjects(key))
  }

  /** Main result: a schema without alternatives is satisfied exactly when each of its keywords is. */
  lemma EveryKeywordIff(o: Oracle, schema: Json, v: Json)
    requires schema.Obj? && (Get(schema, "anyOf").Some? ==> !Get(schema, "anyOf").value.Arr?)
    ensures Satisfies(o, schema, v)
            <==> Ordinary(v)
                 && Asks(o, schema, "const", v) && Asks(o, schema, "enum", v) && Asks(o, schema, "type", v)
                 && ContentAsked(o, schema, v) && Closes(schema, v)
  {
    if Ordinary(v) {
      WholeAsks(o, schema, v);
      ContentAsks(o, schema, v);
    }
  }
}
