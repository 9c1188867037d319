/** The calls of one response against the registry: an envelope that is refused whole, and a batch that runs whole. */
module ToolCalls {
  import opened Json
  import opened Options
  import opened SchemaValidator
  import opened ToolRegistry

  const MAX_CALLS_PER_RESPONSE := 16

  datatype ToolCall = ToolCall(callId: string, name: string, argumentsText: string)

  type Schema = s: Json | s.Obj? witness Obj([])

  /** How texts read: arguments as JSON, if they parse, and a declaration's text as its parameter schema. */
  datatype Reading = Reading(json: string -> Option<Json>, parameters: string -> Schema)

  datatype Rejection = NotDeclared | NotAnObject | FailsSchema(errors: seq<Error>) | AnotherCallWasInvalid

  datatype Envelope = Invalid | Checked(args: seq<Json>, rejections: seq<Option<Rejection>>)

  /** Anything but an object is no arguments. */
  function ParseArgumentsObject(reading: Reading, raw: string): Option<Json> {
    var parsed := reading.json(raw);
    if parsed.Some? && parsed.value.Obj? then parsed else None
  }

  /** The call names a loaded function, and its arguments are an object that satisfies the function's schema. */
  ghost predicate Sound(c: Contents, o: Oracle, reading: Reading, call: ToolCall) {
    && call.name in c.tools
    && var args := reading.json(call.argumentsText);
       args.Some? && args.value.Obj? && Satisfies(o, reading.parameters(c.tools[call.name].f.text), args.value)
  }

  /** The reason a call is rejected for its own sake; at most three errors are told. */
  ghost function OwnRejection(c: Contents, o: Oracle, reading: Reading, call: ToolCall): Option<Rejection> {
    var args := reading.json(call.argumentsText);
    if call.name !in c.tools then Some(NotDeclared)
    else if args.None? || !args.value.Obj? then Some(NotAnObject)
    else
      var schema := reading.parameters(c.tools[call.name].f.text);
      if Satisfies(o, schema, args.value) then None
      else
        var errors := Report([], NodeErrors(o, schema, args.value, []));
        Some(FailsSchema(if |errors| > 3 then errors[..3] else errors))
  }

  lemma SoundIff(c: Contents, o: Oracle, reading: Reading, call: ToolCall)
    ensures OwnRejection(c, o, reading, call).None? <==> Sound(c, o, reading, call)
  {
  }

  function ArgsOf(c: Contents, reading: Reading, call: ToolCall): Json {
    var args := reading.json(call.argumentsText);
    if call.name in c.tools && args.Some? && args.value.Obj? then args.value else Obj([])
  }

  ghost predicate AnyUnsound(c: Contents, o: Oracle, reading: Reading, calls: seq<ToolCall>) {
    exists j :: 0 <= j < |calls| && !Sound(c, o, reading, calls[j])
  }

  predicate GoodIds(calls: seq<ToolCall>, seen: set<string>) {
    && (forall i :: 0 <= i < |calls| ==> calls[i].callId != "" && calls[i].callId !in seen)
    && (forall i, j :: 0 <= i < j < |calls| ==> calls[i].callId != calls[j].callId)
  }

  method CheckIds(calls: seq<ToolCall>, seen: set<string>) returns (good: bool)
    ensures good <==> GoodIds(calls, seen)
  {
    var batchIds: set<string> := {};
    for i := 0 to |calls|
      invariant forall k :: 0 <= k < i ==> calls[k].callId != "" && calls[k].callId !in seen
      invariant forall x :: x in batchIds <==> exists k :: 0 <= k < i && calls[k].callId == x
      invariant forall j, k :: 0 <= j < k < i ==> calls[j].callId != calls[k].callId
    {
      if calls[i].callId == "" || calls[i].callId in batchIds || calls[i].callId in seen { return false; }
      batchIds := batchIds + {calls[i].callId};
    }
    return true;
  }

  /** One call looked at on its own. */
  method CheckCall(registry: EffectiveToolRegistry, o: Oracle, reading: Reading, call: ToolCall)
      returns (args: Json, rejection: Option<Rejection>)
    ensures args == ArgsOf(registry.View(), reading, call)
    ensures rejection == OwnRejection(registry.View(), o, reading, call)
  {
    if call.name !in registry.tools { return Obj([]), Some(NotDeclared); }
    var parsed := ParseArgumentsObject(reading, call.argumentsText);
    if parsed.None? { return Obj([]), Some(NotAnObject); }
    var valid, errors := ValidateJsonSchema(o, reading.parameters(registry.tools[call.name].f.text), parsed.value);
    args, rejection := parsed.value, None;
    if !valid { rejection := Some(FailsSchema(if |errors| > 3 then errors[..3] else errors)); }
  }

  /** What the loop has gathered from the first calls. */
  ghost predicate Gathered(c: Contents, o: Oracle, reading: Reading, calls: seq<ToolCall>, args: seq<Json>,
      rejections: seq<Option<Rejection>>)
  {
    && |args| == |rejections| <= |calls|
    && (forall i :: 0 <= i < |args| ==> args[i] == ArgsOf(c, reading, calls[i]))
    && (forall i :: 0 <= i < |args| ==> rejections[i] == OwnRejection(c, o, reading, calls[i]))
  }

  predicate AnyRejected(rejections: seq<Option<Rejection>>) {
    exists i :: 0 <= i < |rejections| && rejections[i].Some?
  }

  lemma AnySnoc(rejections: seq<Option<Rejection>>, own: Option<Rejection>)
    ensures AnyRejected(rejections + [own]) <==> AnyRejected(rejections) || own.Some?
  {
    var all := rejections + [own];
    if i :| 0 <= i < |rejections| && rejections[i].Some? { assert all[i].Some?; }
    assert all[|rejections|] == own;
  }

  lemma GatheredSnoc(c: Contents, o: Oracle, reading: Reading, calls: seq<ToolCall>, args: seq<Json>,
      rejections: seq<Option<Rejection>>, i: nat)
    requires Gathered(c, o, reading, calls, args, rejections) && i == |args| < |calls|
    ensures Gathered(c, o, reading, calls, args + [ArgsOf(c, reading, calls[i])],
                     rejections + [OwnRejection(c, o, reading, calls[i])])
  {
  }

  /** Every call looked at on its own. */
  method CheckCalls(registry: EffectiveToolRegistry, o: Oracle, reading: Reading, calls: seq<ToolCall>)
      returns (args: seq<Json>, rejections: seq<Option<Rejection>>, any: bool)
    ensures |args| == |calls| && Gathered(registry.View(), o, reading, calls, args, rejections)
    ensures any <==> AnyRejected(rejections)
  {
    args, rejections, any := [], [], false;
    for i := 0 to |calls|
      invariant i == |args| && Gathered(registry.View(), o, reading, calls, args, rejections)
      invariant any <==> AnyRejected(rejections)
    {
      GatheredSnoc(registry.View(), o, reading, calls, args, rejections, i);
      var arg, own := CheckCall(registry, o, reading, calls[i]);
      AnySnoc(rejections, own);
      args, rejections := args + [arg], rejections + [own];
      any := any || own.Some?;
    }
  }

  lemma AnyIsUnsound(c: Contents, o: Oracle, reading: Reading, calls: seq<ToolCall>, rejections: seq<Option<Rejection>>)
    requires |rejections| == |calls|
    requires forall i :: 0 <= i < |calls| ==> rejections[i] == OwnRejection(c, o, reading, calls[i])
    ensures AnyUnsound(c, o, reading, calls) <==> AnyRejected(rejections)
    ensures forall i :: 0 <= i < |calls| ==> (rejections[i].None? <==> Sound(c, o, reading, calls[i]))
  {
    forall k | 0 <= k < |calls| ensures rejections[k].None? <==> Sound(c, o, reading, calls[k]) {
      SoundIff(c, o, reading, calls[k]);
    }
  }

  /** Ids are unique in the turn; the batch runs whole, or every call of it gets a reason of its own or of another. */
  method ValidateEffectiveToolCalls(registry: EffectiveToolRegistry, o: Oracle, reading: Reading, calls: seq<ToolCall>,
                                    seen: set<string>)
      returns (r: Envelope)
    ensures r.Checked? <==> 1 <= |calls| <= 16 && GoodIds(calls, seen)
    ensures r.Checked? ==> |r.args| == |r.rejections| == |calls|
    ensures r.Checked? ==> forall i :: 0 <= i < |calls| ==> r.args[i] == ArgsOf(registry.View(), reading, calls[i])
    ensures r.Checked? ==> forall i :: 0 <= i < |calls| ==>
              (r.rejections[i].Some? <==> AnyUnsound(registry.View(), o, reading, calls))
    ensures r.Checked? ==> forall i :: 0 <= i < |calls| && !Sound(registry.View(), o, reading, calls[i]) ==>
              r.rejections[i] == OwnRejection(registry.View(), o, reading, calls[i])
    ensures r.Checked? ==> forall i :: 0 <= i < |calls| && Sound(registry.View(), o, reading, calls[i]) ==>
              r.rejections[i] in {None, Some(AnotherCallWasInvalid)}
  {
    if |calls| == 0 || |calls| > MAX_CALLS_PER_RESPONSE { return Invalid; }
    var good := CheckIds(calls, seen);
    if !good { return Invalid; }
    var args, rejections, any := CheckCalls(registry, o, reading, calls);
    AnyIsUnsound(registry.View(), o, reading, calls, rejections);
    return Checked(args, if any then Spread(rejections) else rejections);
  }

  /** A batch with a rejected call rejects the others as well. */
  function Spread(rejections: seq<Option<Rejection>>): seq<Option<Rejection>> {
    seq(|rejections|, i requires 0 <= i < |rejections| =>
      if rejections[i].Some? then rejections[i] else Some(AnotherCallWasInvalid))
  }
}
