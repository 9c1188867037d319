/** What a programmatic tool may hand to the model: schema-valid text within the size limit, or a fixed error. */
module ProgramOutput {
  import opened ErrorArms
  import opened Json
  import opened Options
  import opened SchemaValidator

  /** JSON text stands for the value it reads back as; only its length is asked for. */
  type TextLength = Json -> nat

  /** A tool with the arms of its output schema that say what a success looks like. */
  datatype Contract = Contract(tool: Tool, arms: seq<Json>)

  function ArmOf(c: Contract, fault: Fault): Json { OutputError(c.tool, Message(fault)) }

  predicate Emittable(o: Oracle, length: TextLength, c: Contract, text: Json, maxChars: nat) {
    length(text) <= maxChars && Satisfies(o, OutputSchema(c.tool, c.arms), text)
  }

  /** What becomes of a value that has JSON text, or of one that has none. */
  function FaultOf(length: TextLength, value: Option<Json>, maxChars: nat): Fault {
    if value.None? then Serialization
    else if length(Written(value.value)) > maxChars then TooLarge
    else Invalid
  }

  predicate Passes(o: Oracle, length: TextLength, c: Contract, value: Option<Json>, maxChars: nat) {
    value.Some? && Emittable(o, length, c, Written(value.value), maxChars)
  }

  /** The value's own text if that may be emitted, else the tool's error arm; None is a throw. */
  function Emission(o: Oracle, length: TextLength, c: Contract, value: Option<Json>, maxChars: nat): Option<Json> {
    if Passes(o, length, c, value, maxChars) then Some(Written(value.value))
    else
      var arm := ArmOf(c, FaultOf(length, value, maxChars));
      if Emittable(o, length, c, arm, maxChars) then Some(arm) else None
  }

  method SerializeProgrammaticToolOutput(o: Oracle, length: TextLength, c: Contract, value: Option<Json>, maxChars: nat)
      returns (emitted: Option<Json>)
    ensures emitted == Emission(o, length, c, value, maxChars)
    ensures emitted.Some? ==> Emittable(o, length, c, emitted.value, maxChars)
    ensures emitted.None? <==> !Passes(o, length, c, value, maxChars)
                               && length(ArmOf(c, FaultOf(length, value, maxChars))) > maxChars
  {
    ThrowsIff(o, length, c, value, maxChars);
    if value.None? {
      emitted := SerializeOutputError(o, length, c, Serialization, maxChars);
      return;
    }
    var text := Written(value.value);
    if length(text) > maxChars {
      emitted := SerializeOutputError(o, length, c, TooLarge, maxChars);
      return;
    }
    var valid, _ := ValidateJsonSchema(o, OutputSchema(c.tool, c.arms), text);
    if !valid {
      emitted := SerializeOutputError(o, length, c, Invalid, maxChars);
      return;
    }
    emitted := Some(text);
  }

  /** The check of the error arm against its own schema never fails: only its length can stop it. */
  method SerializeOutputError(o: Oracle, length: TextLength, c: Contract, fault: Fault, maxChars: nat)
      returns (emitted: Option<Json>)
    ensures emitted == if length(ArmOf(c, fault)) <= maxChars then Some(ArmOf(c, fault)) else None
    ensures emitted.Some? ==> Emittable(o, length, c, emitted.value, maxChars)
  {
    FixedErrorsSatisfy(o, c.tool, c.arms, fault);
    ErrorWritten(c.tool, Message(fault));
    var arm := ArmOf(c, fault);
    var valid, _ := ValidateJsonSchema(o, OutputSchema(c.tool, c.arms), arm);
    if !valid || length(Written(arm)) > maxChars { return None; }
    emitted := Some(arm);
  }

  /** The serializer throws exactly when neither the value nor the tool's error fits. */
  lemma ThrowsIff(o: Oracle, length: TextLength, c: Contract, value: Option<Json>, maxChars: nat)
    ensures Emission(o, length, c, value, maxChars).None?
       <==> !Passes(o, length, c, value, maxChars) && length(ArmOf(c, FaultOf(length, value, maxChars))) > maxChars
  {
    FixedErrorsSatisfy(o, c.tool, c.arms, FaultOf(length, value, maxChars));
  }

  /** No error takes more characters than JSON text can. */
  ghost predicate Honest(length: TextLength) {
    forall tool, error :: length(OutputError(tool, error)) <= ErrorRoom(tool, error)
  }

  /** Under every limit that can be configured something is emitted. */
  lemma AlwaysEmits(o: Oracle, length: TextLength, c: Contract, value: Option<Json>, maxChars: nat)
    requires Honest(length) && maxChars >= 1000
    ensures Emission(o, length, c, value, maxChars).Some?
  {
    ThrowsIff(o, length, c, value, maxChars);
    FixedErrorsFit(c.tool, FaultOf(length, value, maxChars));
  }

  /** An emitted output that passes through the serializer again comes out unchanged. */
  lemma EmittedAgain(o: Oracle, length: TextLength, c: Contract, value: Option<Json>, maxChars: nat)
    requires Emission(o, length, c, value, maxChars).Some?
    ensures var emitted := Emission(o, length, c, value, maxChars);
            Emission(o, length, c, emitted, maxChars) == emitted
  {
    if value.Some? { WrittenTwice(value.value); }
    ErrorWritten(c.tool, Message(FaultOf(length, value, maxChars)));
  }

  /** A plain failure, blocked by nobody, that tells why the value was not emitted. */
  predicate Says(error: Json, message: string) {
    && error.Obj? && Field("ok", Bool(false)) in error.fields && Field("blocked", Bool(false)) in error.fields
    && Field("error", Str(message)) in error.fields
  }

  lemma ErrorSays(tool: Tool, message: string)
    ensures Says(OutputError(tool, message), message)
  {
    var f := OutputError(tool, message).fields;
    var last := |f| - 1;
    assert f[0] == Field("ok", Bool(false)) && f[last] == Field("blocked", Bool(false));
    assert f[if tool == CountUniverseObjects then 1 else 3] == Field("error", Str(message));
  }

  lemma EmissionSays(o: Oracle, length: TextLength, c: Contract, value: Option<Json>, maxChars: nat)
    requires !Passes(o, length, c, value, maxChars) && Emission(o, length, c, value, maxChars).Some?
    ensures value.None? ==>
              Says(Emission(o, length, c, value, maxChars).value, "Tool output could not be serialized safely.")
    ensures value.Some? && length(Written(value.value)) > maxChars ==>
              Says(Emission(o, length, c, value, maxChars).value, "Tool output exceeded the local size limit.")
    ensures value.Some? && length(Written(value.value)) <= maxChars ==>
              Says(Emission(o, length, c, value, maxChars).value, "Tool output failed local schema validation.")
  {
    ErrorSays(c.tool, Message(FaultOf(length, value, maxChars)));
  }
}
