/** The fixed error of each programmatic tool, against the error arm of the tool's own output schema. */
module ErrorArms {
  import opened Json
  import opened Options
  import opened SchemaValidator

  datatype Tool =
    | CountUniverseObjects | BatchMarketPrices | CompareWormholeTypes | ScoutSystems | KillActivitySummary
    | MarketHistorySummary | SystemMetricSnapshot | DoctrineSummary | DynamicItemSummary

  datatype Fault = Serialization | TooLarge | Invalid

  function Message(fault: Fault): string {
    match fault
    case Invalid => "Tool output failed local schema validation."
    case TooLarge => "Tool output exceeded the local size limit."
    case Serialization => "Tool output could not be serialized safely."
  }

  // ----- the schemas -----

  function ObjectSchema(properties: seq<Field>, required: seq<string>): Json {
    Obj([Field("type", Str("object")), Field("properties", Obj(properties)),
         Field("required", Arr(seq(|required|, i requires 0 <= i < |required| => Str(required[i])))),
         Field("additionalProperties", Bool(false))])
  }

  function ConstSchema(value: Json): Json { Obj([Field("const", value)]) }

  function Whole(n: nat): Json { Num(Fin(n as real)) }

  const OK: Field := Field("ok", ConstSchema(Bool(false)))

  const ERROR: Field := Field("error",
    Obj([Field("type", Str("string")), Field("minLength", Whole(1)), Field("maxLength", Whole(256))]))

  const STATUS: Field := Field("status",
    Obj([Field("type", Arr([Str("integer"), Str("null")])), Field("minimum", Whole(100)),
        Field("maximum", Whole(599))]))

  const BLOCKED: Field := Field("blocked", Obj([Field("type", Str("boolean"))]))

  function FacadeProperties(source: string, authoritative: bool): seq<Field> {
    [OK, Field("source", ConstSchema(Str(source))), Field("authoritative", ConstSchema(Bool(authoritative))),
     ERROR, STATUS, BLOCKED]
  }

  const FACADE_KEYS: seq<string> := ["ok", "source", "authoritative", "error", "status", "blocked"]

  function FacadeErrorSchema(source: string, authoritative: bool): Json {
    ObjectSchema(FacadeProperties(source, authoritative), FACADE_KEYS)
  }

  /** The last arm of the tool's output schema. */
  function ErrorSchema(tool: Tool): Json {
    match tool
    case CountUniverseObjects => ObjectSchema([OK, ERROR, BLOCKED], ["ok", "error"])
    case BatchMarketPrices => FacadeErrorSchema("CCP ESI", true)
    case CompareWormholeTypes => FacadeErrorSchema("EVE-Scout", false)
    case ScoutSystems => FacadeErrorSchema("EVE-Scout", false)
    case KillActivitySummary => FacadeErrorSchema("EVE-KILL", false)
    case MarketHistorySummary => FacadeErrorSchema("CCP ESI", true)
    case SystemMetricSnapshot => FacadeErrorSchema("CCP ESI", true)
    case DoctrineSummary => FacadeErrorSchema("EVE-KILL MCP", false)
    case DynamicItemSummary => FacadeErrorSchema("CCP ESI", true)
  }

  /** The tool's output schema; the arms before the last say what a success looks like. */
  function OutputSchema(tool: Tool, arms: seq<Json>): Json {
    Obj([Field("anyOf", Arr(arms + [ErrorSchema(tool)]))])
  }

  // ----- the errors -----

  function FacadeError(source: string, authoritative: bool, error: string): Json {
    Obj([Field("ok", Bool(false)), Field("source", Str(source)), Field("authoritative", Bool(authoritative)),
         Field("error", Str(error)), Field("status", Null), Field("blocked", Bool(false))])
  }

  function OutputError(tool: Tool, error: string): Json {
    if tool == CountUniverseObjects then
      Obj([Field("ok", Bool(false)), Field("error", Str(error)), Field("blocked", Bool(false))])
    else if tool in {BatchMarketPrices, MarketHistorySummary, SystemMetricSnapshot, DynamicItemSummary} then
      FacadeError("CCP ESI", true, error)
    else if tool == KillActivitySummary then FacadeError("EVE-KILL", false, error)
    else if tool == DoctrineSummary then FacadeError("EVE-KILL MCP", false, error)
    else FacadeError("EVE-Scout", false, error)
  }

  // ----- what satisfies an object schema -----

  lemma ObjectKeywords(properties: seq<Field>, required: seq<string>)
    ensures var s := ObjectSchema(properties, required);
            Get(s, "anyOf").None? && Get(s, "const").None? && Get(s, "enum").None?
            && Get(s, "type") == Some(Str("object"))
    ensures var s := ObjectSchema(properties, required);
            Properties(s) == properties && Get(s, "required") == Some(s.fields[2].value)
  {
    var s := ObjectSchema(properties, required);
    assert DistinctKeys(s.fields);
    GetAt(s, 0);
    GetAt(s, 1);
    GetAt(s, 2);
  }

  predicate SameKeys(properties: seq<Field>, fields: seq<Field>) {
    |properties| == |fields| && forall i :: 0 <= i < |fields| ==> properties[i].key == fields[i].key
  }

  /** An object that lists the declared keys satisfies the schema exactly when each of its values does. */
  lemma ListedIff(o: Oracle, properties: seq<Field>, required: seq<string>, fields: seq<Field>)
    requires DistinctKeys(properties) && SameKeys(properties, fields)
    requires forall i :: 0 <= i < |properties| ==> properties[i].value.Obj?
    requires forall i :: 0 <= i < |required| ==> HasKey(properties, required[i])
    ensures Satisfies(o, ObjectSchema(properties, required), Obj(fields))
       <==> forall i :: 0 <= i < |fields| ==> Satisfies(o, properties[i].value, fields[i].value)
  {
    var s := ObjectSchema(properties, required);
    ObjectKeywords(properties, required);
    TypedObject(o, s, fields);
    RequiredListed(s, properties, fields);
    AdditionalListed(s, properties, fields);
    forall i | 0 <= i < |fields|
      ensures PropertyOk(o, properties[i], fields) <==> Satisfies(o, properties[i].value, fields[i].value)
    {
      LookupAt(fields, i);
    }
  }

  lemma TypedObject(o: Oracle, schema: Json, fields: seq<Field>)
    requires schema.Obj? && Get(schema, "anyOf").None? && Get(schema, "const").None? && Get(schema, "enum").None?
    requires Get(schema, "type") == Some(Str("object"))
    ensures Satisfies(o, schema, Obj(fields)) <==> ObjectOk(o, schema, fields)
  {
  }

  lemma RequiredListed(schema: Json, properties: seq<Field>, fields: seq<Field>)
    requires schema.Obj? && SameKeys(properties, fields)
    requires Get(schema, "required").Some? && Get(schema, "required").value.Arr?
    requires var items := Get(schema, "required").value.items;
             forall i :: 0 <= i < |items| && items[i].Str? ==> HasKey(properties, items[i].s)
    ensures RequiredOk(schema, fields)
  {
    var items := Get(schema, "required").value.items;
    forall i | 0 <= i < |items| && items[i].Str? ensures HasKey(fields, items[i].s) {
      var k :| 0 <= k < |properties| && properties[k].key == items[i].s;
      assert fields[k].key == items[i].s;
    }
  }

  lemma AdditionalListed(schema: Json, properties: seq<Field>, fields: seq<Field>)
    requires schema.Obj? && SameKeys(properties, fields) && Properties(schema) == properties
    ensures AdditionalOk(schema, fields)
  {
    forall i | 0 <= i < |fields| ensures HasKey(properties, fields[i].key) {
      assert properties[i].key == fields[i].key;
    }
  }

  lemma ConstSatisfied(o: Oracle, value: Json)
    requires value.Bool? || value.Str?
    ensures Satisfies(o, ConstSchema(value), value)
  {
  }

  /** Nothing but a type and two bounds on the length. */
  lemma BoundedStringIff(o: Oracle, schema: Json, s: string, low: nat, high: nat)
    requires schema.Obj? && Get(schema, "anyOf").None? && Get(schema, "const").None? && Get(schema, "enum").None?
    requires Get(schema, "pattern").None? && Get(schema, "format").None? && Get(schema, "type") == Some(Str("string"))
    requires Get(schema, "minLength") == Some(Whole(low)) && Get(schema, "maxLength") == Some(Whole(high))
    ensures Satisfies(o, schema, Str(s)) <==> low <= |s| <= high
  {
  }

  lemma ErrorKeywords()
    ensures var s := ERROR.value;
            Get(s, "anyOf").None? && Get(s, "const").None? && Get(s, "enum").None?
            && Get(s, "pattern").None? && Get(s, "format").None?
    ensures var s := ERROR.value;
            Get(s, "type") == Some(Str("string")) && Get(s, "minLength") == Some(Whole(1))
            && Get(s, "maxLength") == Some(Whole(256))
  {
    var s := ERROR.value;
    assert DistinctKeys(s.fields);
    GetAt(s, 0);
    GetAt(s, 1);
    GetAt(s, 2);
  }

  lemma ErrorIff(o: Oracle, error: string)
    ensures Satisfies(o, ERROR.value, Str(error)) <==> 1 <= |error| <= 256
  {
    ErrorKeywords();
    BoundedStringIff(o, ERROR.value, error, 1, 256);
  }

  lemma StatusSatisfied(o: Oracle)
    ensures Satisfies(o, STATUS.value, Null)
  {
    GetAt(STATUS.value, 0);
    assert IsType(STATUS.value.fields[0].value.items[1], Null);
  }

  lemma BlockedSatisfied(o: Oracle)
    ensures Satisfies(o, BLOCKED.value, Bool(false))
  {
    GetAt(BLOCKED.value, 0);
  }

  // ----- the errors against the schemas -----

  lemma FacadeIff(o: Oracle, source: string, authoritative: bool, error: string)
    ensures Satisfies(o, FacadeErrorSchema(source, authoritative), FacadeError(source, authoritative, error))
       <==> 1 <= |error| <= 256
  {
    var properties, fields := FacadeProperties(source, authoritative), FacadeError(source, authoritative, error).fields;
    FacadeKeys(properties);
    FacadeKeys(fields);
    ListedIff(o, properties, FACADE_KEYS, fields);
    FacadeValues(o, source, authoritative, error);
  }

  lemma FacadeValues(o: Oracle, source: string, authoritative: bool, error: string)
    ensures var properties := FacadeProperties(source, authoritative);
            var fields := FacadeError(source, authoritative, error).fields;
            (forall i :: 0 <= i < |fields| ==> Satisfies(o, properties[i].value, fields[i].value))
                <==> 1 <= |error| <= 256
  {
    var properties, fields := FacadeProperties(source, authoritative), FacadeError(source, authoritative, error).fields;
    forall i | 0 <= i < |fields| && i != 3 ensures Satisfies(o, properties[i].value, fields[i].value) {
      FacadeValue(o, source, authoritative, error, i);
    }
    AllButOne(o, properties, fields, 3);
    ErrorIff(o, error);
  }

  lemma FacadeValue(o: Oracle, source: string, authoritative: bool, error: string, i: nat)
    requires i < 6 && i != 3
    ensures Satisfies(o, FacadeProperties(source, authoritative)[i].value,
                      FacadeError(source, authoritative, error).fields[i].value)
  {
    if i < 3 {
      ConstSatisfied(o, FacadeError(source, authoritative, error).fields[i].value);
    } else if i == 4 {
      StatusSatisfied(o);
    } else {
      BlockedSatisfied(o);
    }
  }

  lemma AllButOne(o: Oracle, properties: seq<Field>, fields: seq<Field>, k: nat)
    requires k < |fields| == |properties| && forall i :: 0 <= i < |fields| ==> properties[i].value.Obj?
    requires forall i :: 0 <= i < |fields| && i != k ==> Satisfies(o, properties[i].value, fields[i].value)
    ensures (forall i :: 0 <= i < |fields| ==> Satisfies(o, properties[i].value, fields[i].value))
       <==> Satisfies(o, properties[k].value, fields[k].value)
  {
  }

  lemma FacadeKeys(properties: seq<Field>)
    requires |properties| == |FACADE_KEYS| && forall i :: 0 <= i < |properties| ==> properties[i].key == FACADE_KEYS[i]
    ensures DistinctKeys(properties)
    ensures forall i :: 0 <= i < |FACADE_KEYS| ==> HasKey(properties, FACADE_KEYS[i])
  {
    assert FACADE_KEYS[0] != FACADE_KEYS[1];
  }

  lemma CountIff(o: Oracle, error: string)
    ensures Satisfies(o, ErrorSchema(CountUniverseObjects), OutputError(CountUniverseObjects, error))
       <==> 1 <= |error| <= 256
  {
    var properties, required, fields :=
      [OK, ERROR, BLOCKED], ["ok", "error"], OutputError(CountUniverseObjects, error).fields;
    assert properties[0].key == required[0] && properties[1].key == required[1];
    ListedIff(o, properties, required, fields);
    ConstSatisfied(o, Bool(false));
    ErrorIff(o, error);
    BlockedSatisfied(o);
    assert properties[1] == ERROR && fields[1].value == Str(error);
  }

  /** A tool's error fits the error arm of its schema exactly when its message is of the declared length. */
  lemma ErrorArmIff(o: Oracle, tool: Tool, error: string)
    ensures Satisfies(o, ErrorSchema(tool), OutputError(tool, error)) <==> 1 <= |error| <= 256
  {
    match tool
    case CountUniverseObjects => CountIff(o, error);
    case KillActivitySummary => FacadeIff(o, "EVE-KILL", false, error);
    case DoctrineSummary => FacadeIff(o, "EVE-KILL MCP", false, error);
    case CompareWormholeTypes => FacadeIff(o, "EVE-Scout", false, error);
    case ScoutSystems => FacadeIff(o, "EVE-Scout", false, error);
    case _ => FacadeIff(o, "CCP ESI", true, error);
  }

  lemma LastArm(o: Oracle, arms: seq<Json>, last: Json, v: Json)
    requires last.Obj? && Satisfies(o, last, v)
    ensures Satisfies(o, Obj([Field("anyOf", Arr(arms + [last]))]), v)
  {
    var s := Obj([Field("anyOf", Arr(arms + [last]))]);
    GetAt(s, 0);
    assert (arms + [last])[|arms|] == last;
  }

  /** Each of the fixed errors satisfies the schema of its tool. */
  lemma FixedErrorsSatisfy(o: Oracle, tool: Tool, arms: seq<Json>, fault: Fault)
    ensures Satisfies(o, OutputSchema(tool, arms), OutputError(tool, Message(fault)))
  {
    MessageLength(fault);
    ErrorSatisfies(o, tool, arms, Message(fault));
  }

  lemma ErrorSatisfies(o: Oracle, tool: Tool, arms: seq<Json>, error: string)
    requires 1 <= |error| <= 256
    ensures Satisfies(o, OutputSchema(tool, arms), OutputError(tool, error))
  {
    ErrorArmIff(o, tool, error);
    LastArm(o, arms, ErrorSchema(tool), OutputError(tool, error));
  }

  /** An error holds text, booleans and null only, so writing it loses nothing. */
  lemma ErrorWritten(tool: Tool, error: string)
    ensures Written(OutputError(tool, error)) == OutputError(tool, error)
  {
    var f := OutputError(tool, error).fields;
    forall i | 0 <= i < |f| ensures Written(f[i].value) == f[i].value {}
    assert Written(OutputError(tool, error)).fields == f;
  }

  // ----- how long they are -----

  /** JSON text has at most six characters for one of a string, and four or five for null and the booleans. */
  function ValueRoom(j: Json): nat { if j.Str? then 6 * |j.s| + 2 else 5 }

  /** A field with its quotes, its colon and its comma. */
  function FieldRoom(f: Field): nat { 6 * |f.key| + 4 + ValueRoom(f.value) }

  function FieldsRoom(f: seq<Field>): nat {
    if f == [] then 2 else FieldsRoom(f[..|f| - 1]) + FieldRoom(f[|f| - 1])
  }

  function ErrorRoom(tool: Tool, error: string): nat { FieldsRoom(OutputError(tool, error).fields) }

  lemma ThreeMore(f: seq<Field>, a: Field, b: Field, c: Field)
    ensures FieldsRoom(f + [a] + [b] + [c]) == FieldsRoom(f) + FieldRoom(a) + FieldRoom(b) + FieldRoom(c)
  {
    FieldsRoomSnoc(f, a);
    FieldsRoomSnoc(f + [a], b);
    FieldsRoomSnoc(f + [a] + [b], c);
  }

  lemma FieldsRoomSnoc(f: seq<Field>, x: Field)
    ensures FieldsRoom(f + [x]) == FieldsRoom(f) + FieldRoom(x)
  {
    assert (f + [x])[..|f|] == f;
  }

  lemma ThreeFields(f: seq<Field>)
    requires |f| == 3
    ensures FieldsRoom(f) == 2 + FieldRoom(f[0]) + FieldRoom(f[1]) + FieldRoom(f[2])
  {
    ThreeMore([], f[0], f[1], f[2]);
    assert [] + [f[0]] + [f[1]] + [f[2]] == f;
  }

  lemma SixFields(f: seq<Field>)
    requires |f| == 6
    ensures FieldsRoom(f) == 2 + FieldRoom(f[0]) + FieldRoom(f[1]) + FieldRoom(f[2])
                             + FieldRoom(f[3]) + FieldRoom(f[4]) + FieldRoom(f[5])
  {
    ThreeFields(f[..3]);
    ThreeMore(f[..3], f[3], f[4], f[5]);
    assert f[..3] + [f[3]] + [f[4]] + [f[5]] == f;
  }

  lemma FacadeRoom(source: string, authoritative: bool, error: string)
    requires |source| <= 12
    ensures FieldsRoom(FacadeError(source, authoritative, error).fields) <= 6 * |error| + 369
  {
    SixFields(FacadeError(source, authoritative, error).fields);
  }

  lemma MessageLength(fault: Fault)
    ensures 1 <= |Message(fault)| <= 45
  {
  }

  /** The fixed errors fit whatever limit can be configured. */
  lemma FixedErrorsFit(tool: Tool, fault: Fault)
    ensures ErrorRoom(tool, Message(fault)) <= 1000
  {
    MessageLength(fault);
    var error := Message(fault);
    if tool == CountUniverseObjects {
      ThreeFields(OutputError(tool, error).fields);
    } else {
      FacadeRoom("CCP ESI", true, error);
      FacadeRoom("EVE-KILL", false, error);
      FacadeRoom("EVE-KILL MCP", false, error);
      FacadeRoom("EVE-Scout", false, error);
    }
  }
}
