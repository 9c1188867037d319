/** What a broken stream says about the retry rule: the flag of useful deltas, tied to the text that had arrived. */
module StreamProgress {
  import opened Options
  import opened SseParser
  import opened SseTexts

  /** What is read from an event's payload; absent where the field is missing or not a string. */
  datatype Payload = Payload(delta: Option<string>, text: Option<string>, outputText: Option<string>,
                             nestedText: Option<string>, itemType: Option<string>)

  /** JSON text is not modelled: how a payload reads is a parameter. */
  type Reading = string -> Payload

  function TextDeltaToken(d: Payload): Option<string> {
    var token := if d.delta.Some? then d.delta else if d.text.Some? then d.text
                 else if d.outputText.Some? then d.outputText else d.nestedText;
    if token == Some("") then None else token
  }

  predicate IsUsefulStreamEvent(reading: Reading, e: Event) {
    if e.name == "response.output_text.delta" || e.name == "response.text.delta" then
      TextDeltaToken(reading(e.data)).Some?
    else if e.name == "response.output_text.done" || e.name == "response.text.done" then true
    else if e.name == "response.function_call_arguments.delta" || e.name == "response.function_call_arguments.done" then
      true
    else if e.name == "response.output_item.added" || e.name == "response.output_item.done" then
      reading(e.data).itemType == Some("function_call")
    else false
  }

  predicate AnyUseful(reading: Reading, events: seq<Event>) {
    exists i :: 0 <= i < |events| && IsUsefulStreamEvent(reading, events[i])
  }

  /** The first of four places that holds a text at all holds some. */
  predicate HasToken(d: Payload) {
    || (d.delta.Some? && d.delta.value != "")
    || (d.delta.None? && d.text.Some? && d.text.value != "")
    || (d.delta.None? && d.text.None? && d.outputText.Some? && d.outputText.value != "")
    || (d.delta.None? && d.text.None? && d.outputText.None? && d.nestedText.Some? && d.nestedText.value != "")
  }

  /** Text on the wire, or a tool call. */
  predicate OnTheWire(name: string, d: Payload) {
    || (name in {"response.output_text.delta", "response.text.delta"} && HasToken(d))
    || name in {"response.output_text.done", "response.text.done"}
    || name in {"response.function_call_arguments.delta", "response.function_call_arguments.done"}
    || (name in {"response.output_item.added", "response.output_item.done"} && d.itemType == Some("function_call"))
  }

  lemma UsefulIffOnTheWire(reading: Reading, e: Event)
    ensures IsUsefulStreamEvent(reading, e) <==> OnTheWire(e.name, reading(e.data))
  {
  }

  /** A named event in a text of its own counts exactly when it is on the wire. */
  lemma NamedEventCounts(p: PayloadType, reading: Reading, n: string, v: string)
    requires Plain(n) && Plain(v) && Trim(n) != "" && Trim(n) != "message" && v != "" && v != "[DONE]"
    ensures AnyUseful(reading, ReadText(p, "event:" + n + "\n" + ("data: " + v) + "\n\n"))
       <==> OnTheWire(Trim(n), reading(v))
  {
    NamedReads(p, n, v);
    UsefulIffOnTheWire(reading, Event(Trim(n), v));
    var events := [Event(Trim(n), v)];
    assert AnyUseful(reading, events) <==> IsUsefulStreamEvent(reading, events[0]);
  }

  // ----- what a text that is still arriving has told so far -----

  /** The complete lines of a text: all up to its last newline. */
  function Ended(text: string): (n: nat)
    ensures EndsAt(text, n)
  {
    if text == [] || text[|text| - 1] == '\n' then |text| else Ended(text[..|text| - 1])
  }

  /** The events of the groups that a blank line has closed. */
  function EventsSoFar(p: PayloadType, text: string): seq<Event> { ReadSoFar(p, Lines(text[..Ended(text)])).events }

  lemma EndedAt(done: string, buffer: string)
    requires Complete(done) && NoNewline(buffer)
    ensures Ended(done + buffer) == |done| && (done + buffer)[..|done|] == done
  {
    var n := Ended(done + buffer);
    assert forall k :: 0 <= k < |done| ==> (done + buffer)[k] == done[k];
    assert forall k :: 0 <= k < |buffer| ==> (done + buffer)[|done| + k] == buffer[k];
    LastNewlineAt(done + buffer, n, |done|);
  }

  predicate EndsAt(text: string, n: nat) {
    n <= |text| && (n > 0 ==> text[n - 1] == '\n') && forall k :: n <= k < |text| ==> text[k] != '\n'
  }

  lemma LastNewlineAt(text: string, m: nat, n: nat)
    requires EndsAt(text, m) && EndsAt(text, n)
    ensures m == n
  {
  }

  /** Of all the events in the text at most one, the last, has not been seen yet. */
  lemma AtMostOneUnseen(p: PayloadType, text: string)
    ensures EventsSoFar(p, text) <= ReadText(p, text)
    ensures |ReadText(p, text)| <= |EventsSoFar(p, text)| + 1
  {
    var n := Ended(text);
    assert text[..n] + text[n..] == text;
    LastLine(p, text[..n], text[n..]);
    FlushesOne(p, ReadSoFar(p, Lines(text[..n])), StripReturn(text[n..]));
  }

  lemma FlushesOne(p: PayloadType, s: Progress, line: string)
    ensures s.events <= Flushed(p, s).events && |Flushed(p, s).events| <= |s.events| + 1
    ensures var f := Flushed(p, Absorb(p, s, line)); s.events <= f.events && |f.events| <= |s.events| + 1
  {
  }

  // ----- reading the stream -----

  /** The callback of the parser, once for each event it has delivered. */
  method TakeEvents(reading: Reading, taken: seq<Event>, sawUsefulDeltas: bool, delivered: seq<Event>)
      returns (events: seq<Event>, useful: bool)
    requires taken <= delivered && sawUsefulDeltas == AnyUseful(reading, taken)
    ensures events == delivered && useful == AnyUseful(reading, delivered)
  {
    events, useful := taken, sawUsefulDeltas;
    while |events| < |delivered|
      invariant events <= delivered && useful == AnyUseful(reading, events)
    {
      var event := delivered[|events|];
      OneMore(reading, events, event);
      events := events + [event];
      if !useful && IsUsefulStreamEvent(reading, event) { useful := true; }
    }
  }

  lemma OneMore(reading: Reading, events: seq<Event>, event: Event)
    ensures AnyUseful(reading, events + [event]) == (AnyUseful(reading, events) || IsUsefulStreamEvent(reading, event))
  {
    var all := events + [event];
    assert all[|events|] == event;
    if AnyUseful(reading, events) {
      var i :| 0 <= i < |events| && IsUsefulStreamEvent(reading, events[i]);
      assert all[i] == events[i];
    }
  }

  /**
   * Reads the chunks that arrive. A stream that breaks off is not flushed, and the flag its error carries speaks of
   * the closed groups alone.
   */
  method RequestHttpSseEvents(p: PayloadType, reading: Reading, chunks: seq<string>, breaks: bool)
      returns (events: seq<Event>, sawUsefulDeltas: bool)
    ensures events == if breaks then EventsSoFar(p, Concat(chunks)) else ReadText(p, Concat(chunks))
    ensures sawUsefulDeltas == AnyUseful(reading, events)
    ensures sawUsefulDeltas <==> exists i :: 0 <= i < |events| && OnTheWire(events[i].name, reading(events[i].data))
  {
    forall e: Event { UsefulIffOnTheWire(reading, e); }
    var parser := new SseParser(p);
    events, sawUsefulDeltas := [], false;
    for i := 0 to |chunks|
      invariant parser.Valid() && fresh(parser) && parser.payloadType == p && parser.Fed() == Concat(chunks[..i])
      invariant events == parser.events && sawUsefulDeltas == AnyUseful(reading, events)
    {
      parser.Feed(chunks[i]);
      assert chunks[..i + 1][..i] == chunks[..i];
      events, sawUsefulDeltas := TakeEvents(reading, events, sawUsefulDeltas, parser.events);
    }
    assert chunks[..|chunks|] == chunks;
    SeenByNow(p, parser.done, parser.buffer);
    if breaks { return; }
    parser.End();
    events, sawUsefulDeltas := TakeEvents(reading, events, sawUsefulDeltas, parser.events);
  }

  lemma SeenByNow(p: PayloadType, done: string, buffer: string)
    requires Complete(done) && NoNewline(buffer)
    ensures EventsSoFar(p, done + buffer) == ReadSoFar(p, Lines(done)).events <= ReadText(p, done + buffer)
  {
    EndedAt(done, buffer);
    AtMostOneUnseen(p, done + buffer);
  }

  // ----- a useful event that is on the wire but not seen -----

  /** The text that arrived ends in a useful event whose closing blank line did not arrive, and has none before it. */
  predicate UsefulUnseen(p: PayloadType, reading: Reading, text: string) {
    var events := ReadText(p, text);
    && events != [] && IsUsefulStreamEvent(reading, events[|events| - 1])
    && EventsSoFar(p, text) == events[..|events| - 1] && !AnyUseful(reading, EventsSoFar(p, text))
  }

  lemma UnseenIff(p: PayloadType, reading: Reading, text: string)
    ensures AnyUseful(reading, ReadText(p, text)) && !AnyUseful(reading, EventsSoFar(p, text))
            <==> UsefulUnseen(p, reading, text)
  {
    AtMostOneUnseen(p, text);
    LastIsUseful(reading, EventsSoFar(p, text), ReadText(p, text));
  }

  lemma LastIsUseful(reading: Reading, seen: seq<Event>, events: seq<Event>)
    requires seen <= events && |events| <= |seen| + 1
    ensures AnyUseful(reading, events) && !AnyUseful(reading, seen)
            <==> events != [] && IsUsefulStreamEvent(reading, events[|events| - 1]) && seen == events[..|events| - 1]
                 && !AnyUseful(reading, seen)
  {
    if |events| == |seen| {
      assert events == seen;
    } else {
      assert events == seen + [events[|seen|]];
      OneMore(reading, seen, events[|seen|]);
    }
  }

  /** A name or payload as the provider writes it: one line, no white space around it. */
  predicate Plain(s: string) {
    s != "" && !IsSpace(s[0]) && !IsSpace(s[|s| - 1]) && NoNewline(s)
  }

  /** A group that was cut off in front of its blank line is not seen; if its event is useful, neither is that. */
  lemma OpenGroupUnseen(p: PayloadType, reading: Reading, name: string, data: string)
    requires Plain(name) && Plain(data) && name != "message" && data != "[DONE]"
    ensures var text := ("event:" + name + "\n") + ("data:" + data + "\n");
            EventsSoFar(p, text) == [] && ReadText(p, text) == [Event(name, data)]
            && (UsefulUnseen(p, reading, text) <==> IsUsefulStreamEvent(reading, Event(name, data)))
  {
    var text := ("event:" + name + "\n") + ("data:" + data + "\n");
    FieldsOf(name, data);
    OpenGroup(p, "event:" + name, "data:" + data);
    OpenEvent(p, text, name, data);
    assert [Event(name, data)][..0] == [];
  }

  /** What a group tells when it is still open. */
  lemma OpenEvent(p: PayloadType, text: string, name: string, data: string)
    requires Complete(text) && ReadSoFar(p, Lines(text)) == Progress(name, [data], [])
    requires name != "message" && data != "" && data != "[DONE]"
    ensures EventsSoFar(p, text) == [] && ReadText(p, text) == [Event(name, data)]
  {
    assert text + "" == text;
    SeenByNow(p, text, "");
    LastLine(p, text, "");
  }

  lemma FieldsOf(name: string, data: string)
    requires Plain(name) && Plain(data)
    ensures var first, second := "event:" + name, "data:" + data;
            NoNewline(first) && StripReturn(first) == first && NoNewline(second) && StripReturn(second) == second
            && IsEvent(first) && !IsComment(first) && NameIn(first) == name
            && IsData(second) && DataIn(second) == data
  {
    var first, second := "event:" + name, "data:" + data;
    assert first[6..] == name && second[5..] == data && first[0] == 'e' && second[5] == data[0];
    assert first[|first| - 1] == name[|name| - 1] && second[|second| - 1] == data[|data| - 1];
    assert forall k :: 6 <= k < |first| ==> first[k] == name[k - 6];
    assert forall k :: 5 <= k < |second| ==> second[k] == data[k - 5];
    assert first[..6] == "event:" && second[..5] == "data:";
  }

  /** Two lines read, none of them blank. */
  lemma OpenGroup(p: PayloadType, first: string, second: string)
    requires NoNewline(first) && NoNewline(second) && StripReturn(first) == first && StripReturn(second) == second
    requires IsEvent(first) && IsData(second)
    ensures var text := (first + "\n") + (second + "\n");
            Complete(text) && ReadSoFar(p, Lines(text)) == Progress(NameIn(first), [DataIn(second)], [])
  {
    assert "" + first + "\n" == first + "\n";
    assert Lines("") == [];
    NextLine(p, "", first);
    SecondLine(p, first + "\n", second);
    AbsorbTwo(p, first, second);
  }

  lemma SecondLine(p: PayloadType, done: string, line: string)
    requires Complete(done) && NoNewline(line) && StripReturn(line) == line
    ensures Complete(done + (line + "\n"))
    ensures ReadSoFar(p, Lines(done + (line + "\n"))) == Absorb(p, ReadSoFar(p, Lines(done)), line)
  {
    Assoc(done, line, "\n");
    NextLine(p, done, line);
  }

  lemma AbsorbTwo(p: PayloadType, first: string, second: string)
    requires IsEvent(first) && IsData(second)
    ensures Absorb(p, Absorb(p, ReadSoFar(p, []), first), second) == Progress(NameIn(first), [DataIn(second)], [])
  {
    FieldsDiffer(first);
    FieldsDiffer(second);
  }
}
