/** Which objects the error arms of the programmatic tools let through. */
module ErrorSchemas {
  import opened ErrorArms
  import opened Json
  import opened Options
  import opened SchemaKeywords
  import opened SchemaValidator

  // ----- single properties -----

  lemma ConstValueIff(o: Oracle, c: Json, v: Json)
    requires c.Bool? || c.Str?
    ensures Satisfies(o, ConstSchema(c), v) <==> v == c
  {
    ConstIff(o, c, v);
    assert ConstSchema(c) == Sole("const", c);
  }

  lemma ErrorValueIff(o: Oracle, v: Json)
    ensures Satisfies(o, ERROR.value, v) <==> v.Str? && 1 <= |v.s| <= 256
  {
    ErrorKeywords();
    if v.Str? { ErrorIff(o, v.s); }
  }

  lemma StatusKeywords()
    ensures var s := STATUS.value;
            Get(s, "anyOf").None? && Get(s, "const").None? && Get(s, "enum").None?
    ensures var s := STATUS.value;
            Get(s, "type") == Some(Arr([Str("integer"), Str("null")])) && Get(s, "minimum") == Some(Whole(100))
            && Get(s, "maximum") == Some(Whole(599))
  {
    var s := STATUS.value;
    assert DistinctKeys(s.fields);
    GetAt(s, 0);
    GetAt(s, 1);
    GetAt(s, 2);
  }

  /** An HTTP status, or none. */
  predicate IsStatus(v: Json) { v.Null? || (v.Num? && IsWhole(v.n) && 100.0 <= Size(v.n) <= 599.0) }

  lemma StatusType(v: Json)
    ensures MatchesDeclaredType(Arr([Str("integer"), Str("null")]), v) <==> v.Null? || (v.Num? && IsWhole(v.n))
  {
    var words := [Str("integer"), Str("null")];
    WordType("integer", v);
    WordType("null", v);
    assert MatchesDeclaredType(Arr(words), v) <==> IsType(words[0], v) || IsType(words[1], v);
  }

  lemma StatusValueIff(o: Oracle, v: Json)
    ensures Satisfies(o, STATUS.value, v) <==> IsStatus(v)
  {
    StatusKeywords();
    StatusType(v);
    assert Satisfies(o, STATUS.value, v) <==> TypeOk(STATUS.value, v) && ContentOk(o, STATUS.value, v);
  }

  lemma BlockedValueIff(o: Oracle, v: Json)
    ensures Satisfies(o, BLOCKED.value, v) <==> v.Bool?
  {
    TypeWordIff(o, v);
    assert BLOCKED.value == Sole("type", Str("boolean"));
  }

  // ----- objects -----

  /** A closed object schema: the required keys are there, all keys are declared, and the values are as declared. */
  lemma ClosedObjectIff(o: Oracle, properties: seq<Field>, required: seq<string>, fields: seq<Field>)
    requires DistinctKeys(properties) && DistinctKeys(fields)
    requires forall i :: 0 <= i < |properties| ==> properties[i].value.Obj?
    ensures Satisfies(o, ObjectSchema(properties, required), Obj(fields))
            <==> && (forall i :: 0 <= i < |required| ==> Occurs(fields, required[i]))
                 && (forall j :: 0 <= j < |fields| ==> Declared(o, properties, fields[j]))
  {
    var s := ObjectSchema(properties, required);
    ObjectKeywords(properties, required);
    GetAt(s, 3);
    TypedObject(o, s, fields);
    RequiredIffOccur(s, required, fields);
    PropertiesHold(o, properties, fields);
  }

  /** The field is declared, and its value is as declared. */
  predicate Declared(o: Oracle, properties: seq<Field>, field: Field) {
    exists i :: 0 <= i < |properties| && Declares(properties[i], field)
                && Satisfies(o, properties[i].value, field.value)
  }

  lemma RequiredIffOccur(s: Json, required: seq<string>, fields: seq<Field>)
    requires s.Obj? && Get(s, "required").Some? && Get(s, "required").value.Arr?
    requires var items := Get(s, "required").value.items;
             |items| == |required| && forall i :: 0 <= i < |required| ==> items[i] == Str(required[i])
    ensures RequiredOk(s, fields) <==> forall i :: 0 <= i < |required| ==> Occurs(fields, required[i])
  {
    var items := Get(s, "required").value.items;
    forall i | 0 <= i < |required| ensures HasKey(fields, items[i].s) <==> Occurs(fields, required[i]) {}
  }

  lemma PropertiesHold(o: Oracle, properties: seq<Field>, fields: seq<Field>)
    requires DistinctKeys(properties) && DistinctKeys(fields)
    requires forall i :: 0 <= i < |properties| ==> properties[i].value.Obj?
    ensures (forall j :: 0 <= j < |fields| ==> HasKey(properties, fields[j].key))
            && (forall i :: 0 <= i < |properties| ==> PropertyOk(o, properties[i], fields))
            <==> forall j :: 0 <= j < |fields| ==> Declared(o, properties, fields[j])
  {
    forall j | 0 <= j < |fields|
      ensures HasKey(fields, fields[j].key) && Lookup(fields, fields[j].key) == fields[j].value
    {
      LookupAt(fields, j);
    }
    if forall j :: 0 <= j < |fields| ==> Declared(o, properties, fields[j]) {
      forall i | 0 <= i < |properties| ensures PropertyOk(o, properties[i], fields) {
        if HasKey(fields, properties[i].key) {
          var j :| 0 <= j < |fields| && fields[j].key == properties[i].key;
          var k :| 0 <= k < |properties| && Declares(properties[k], fields[j])
                   && Satisfies(o, properties[k].value, fields[j].value);
          assert k == i;
        }
      }
    }
    if (forall j :: 0 <= j < |fields| ==> HasKey(properties, fields[j].key))
       && (forall i :: 0 <= i < |properties| ==> PropertyOk(o, properties[i], fields)) {
      forall j | 0 <= j < |fields| ensures Declared(o, properties, fields[j]) {
        var i :| 0 <= i < |properties| && properties[i].key == fields[j].key;
        assert PropertyOk(o, properties[i], fields) && Declares(properties[i], fields[j]);
      }
    }
  }

  // ----- the error arms -----

  /** A field that an error of the source may have. */
  predicate FacadeField(source: string, authoritative: bool, f: Field) {
    || (f.key == "ok" && f.value == Bool(false))
    || (f.key == "source" && f.value == Str(source))
    || (f.key == "authoritative" && f.value == Bool(authoritative))
    || (f.key == "error" && f.value.Str? && 1 <= |f.value.s| <= 256)
    || (f.key == "status" && IsStatus(f.value))
    || (f.key == "blocked" && f.value.Bool?)
  }

  /** The i-th property: its key, and its values. */
  predicate FacadeValue(source: string, authoritative: bool, i: nat, v: Json) {
    if i == 0 then v == Bool(false)
    else if i == 1 then v == Str(source)
    else if i == 2 then v == Bool(authoritative)
    else if i == 3 then v.Str? && 1 <= |v.s| <= 256
    else if i == 4 then IsStatus(v)
    else v.Bool?
  }

  lemma FacadeValueIff(o: Oracle, source: string, authoritative: bool, i: nat, v: Json)
    requires i < 6
    ensures Satisfies(o, FacadeProperties(source, authoritative)[i].value, v)
            <==> FacadeValue(source, authoritative, i, v)
  {
    if i == 0 {
      ConstValueIff(o, Bool(false), v);
    } else if i == 1 {
      ConstValueIff(o, Str(source), v);
    } else if i == 2 {
      ConstValueIff(o, Bool(authoritative), v);
    } else if i == 3 {
      ErrorValueIff(o, v);
    } else if i == 4 {
      StatusValueIff(o, v);
    } else {
      BlockedValueIff(o, v);
    }
  }

  lemma FacadeFieldIff(o: Oracle, source: string, authoritative: bool, f: Field)
    ensures Declared(o, FacadeProperties(source, authoritative), f) <==> FacadeField(source, authoritative, f)
  {
    forall i: nat | i < 6
      ensures Satisfies(o, FacadeProperties(source, authoritative)[i].value, f.value)
              <==> FacadeValue(source, authoritative, i, f.value)
    {
      FacadeValueIff(o, source, authoritative, i, f.value);
    }
    SixDeclare(o, FacadeProperties(source, authoritative), f);
  }

  lemma SixDeclare(o: Oracle, ps: seq<Field>, f: Field)
    requires |ps| == 6 && forall i :: 0 <= i < 6 ==> ps[i].value.Obj?
    ensures Declared(o, ps, f)
            <==> || (f.key == ps[0].key && Satisfies(o, ps[0].value, f.value))
                 || (f.key == ps[1].key && Satisfies(o, ps[1].value, f.value))
                 || (f.key == ps[2].key && Satisfies(o, ps[2].value, f.value))
                 || (f.key == ps[3].key && Satisfies(o, ps[3].value, f.value))
                 || (f.key == ps[4].key && Satisfies(o, ps[4].value, f.value))
                 || (f.key == ps[5].key && Satisfies(o, ps[5].value, f.value))
  {
  }

  /** An object is an error of the source exactly when it has the six fields, as they should be, and no others. */
  lemma FacadeErrorIff(o: Oracle, source: string, authoritative: bool, fields: seq<Field>)
    requires DistinctKeys(fields)
    ensures Satisfies(o, FacadeErrorSchema(source, authoritative), Obj(fields))
            <==> && (forall j :: 0 <= j < |fields| ==> FacadeField(source, authoritative, fields[j]))
                 && Occurs(fields, "ok") && Occurs(fields, "source") && Occurs(fields, "authoritative")
                 && Occurs(fields, "error") && Occurs(fields, "status") && Occurs(fields, "blocked")
  {
    FacadeKeys(FacadeProperties(source, authoritative));
    ClosedObjectIff(o, FacadeProperties(source, authoritative), FACADE_KEYS, fields);
    forall j | 0 <= j < |fields|
      ensures Declared(o, FacadeProperties(source, authoritative), fields[j])
              <==> FacadeField(source, authoritative, fields[j])
    {
      FacadeFieldIff(o, source, authoritative, fields[j]);
    }
    SixOccur(fields, FACADE_KEYS);
  }

  lemma SixOccur(fields: seq<Field>, keys: seq<string>)
    requires |keys| == 6
    ensures (forall i :: 0 <= i < |keys| ==> Occurs(fields, keys[i]))
            <==> && Occurs(fields, keys[0]) && Occurs(fields, keys[1]) && Occurs(fields, keys[2])
                 && Occurs(fields, keys[3]) && Occurs(fields, keys[4]) && Occurs(fields, keys[5])
  {
  }

  predicate CountField(f: Field) {
    || (f.key == "ok" && f.value == Bool(false))
    || (f.key == "error" && f.value.Str? && 1 <= |f.value.s| <= 256)
    || (f.key == "blocked" && f.value.Bool?)
  }

  lemma ThreeDeclare(o: Oracle, ps: seq<Field>, f: Field)
    requires |ps| == 3 && forall i :: 0 <= i < 3 ==> ps[i].value.Obj?
    ensures Declared(o, ps, f)
            <==> || (f.key == ps[0].key && Satisfies(o, ps[0].value, f.value))
                 || (f.key == ps[1].key && Satisfies(o, ps[1].value, f.value))
                 || (f.key == ps[2].key && Satisfies(o, ps[2].value, f.value))
  {
  }

  lemma CountFieldIff(o: Oracle, f: Field)
    ensures Declared(o, [OK, ERROR, BLOCKED], f) <==> CountField(f)
  {
    ConstValueIff(o, Bool(false), f.value);
    ErrorValueIff(o, f.value);
    BlockedValueIff(o, f.value);
    ThreeDeclare(o, [OK, ERROR, BLOCKED], f);
  }

  /** The counting tool names no source, and may leave out whether it was blocked. */
  lemma CountErrorIff(o: Oracle, fields: seq<Field>)
    requires DistinctKeys(fields)
    ensures Satisfies(o, ErrorSchema(CountUniverseObjects), Obj(fields))
            <==> (forall j :: 0 <= j < |fields| ==> CountField(fields[j]))
                 && Occurs(fields, "ok") && Occurs(fields, "error")
  {
    var required := ["ok", "error"];
    ClosedObjectIff(o, [OK, ERROR, BLOCKED], required, fields);
    forall j | 0 <= j < |fields| ensures Declared(o, [OK, ERROR, BLOCKED], fields[j]) <==> CountField(fields[j]) {
      CountFieldIff(o, fields[j]);
    }
    assert (forall i :: 0 <= i < |required| ==> Occurs(fields, required[i]))
           <==> Occurs(fields, required[0]) && Occurs(fields, required[1]);
  }
}
