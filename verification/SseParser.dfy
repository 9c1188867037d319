/** The incremental server-sent-events parser and its whole-text specification. */
module SseParser {

  datatype Event = Event(name: string, data: string)

  // ----- text helpers -----

  /** White space in the sense of JavaScript's trim and \s. */
  predicate IsSpace(c: char) {
    c == ' ' || c == '\t' || c == '\n' || c == '\r' || c == '\U{0B}' || c == '\U{0C}' || c == '\U{A0}'
    || c == '\U{1680}' || '\U{2000}' <= c <= '\U{200A}' || c == '\U{2028}' || c == '\U{2029}'
    || c == '\U{202F}' || c == '\U{205F}' || c == '\U{3000}' || c == '\U{FEFF}'
  }

  function Trim(s: string): string {
    if s == [] then s
    else if IsSpace(s[0]) then Trim(s[1..])
    else if IsSpace(s[|s| - 1]) then Trim(s[..|s| - 1])
    else s
  }

  predicate StartsWith(s: string, prefix: string) { prefix <= s }

  function StripReturn(line: string): string {
    if line != [] && line[|line| - 1] == '\r' then line[..|line| - 1] else line
  }

  /** The position of the first newline, or the length of the text. */
  function Newline(s: string): (i: nat)
    ensures i <= |s| && (i < |s| ==> s[i] == '\n')
    ensures forall k :: 0 <= k < i ==> s[k] != '\n'
  {
    if s == [] || s[0] == '\n' then 0 else 1 + Newline(s[1..])
  }

  function Join(lines: seq<string>): string {
    if lines == [] then "" else if |lines| == 1 then lines[0] else lines[0] + "\n" + Join(lines[1..])
  }

  // ----- what a text means: split into lines, group by blank lines, read each group -----

  function Lines(text: string): seq<string>
    decreases |text|
  {
    if text == [] then [] else
      var i := Newline(text);
      [StripReturn(text[..i])] + if i < |text| then Lines(text[i + 1..]) else []
  }

  function FirstBlank(lines: seq<string>): (i: nat)
    ensures i <= |lines| && (i < |lines| ==> lines[i] == "")
    ensures forall k :: 0 <= k < i ==> lines[k] != ""
  {
    if lines == [] || lines[0] == "" then 0 else 1 + FirstBlank(lines[1..])
  }

  predicate IsComment(line: string) { StartsWith(line, ":") }

  predicate IsEvent(line: string) { StartsWith(line, "event:") }

  predicate IsData(line: string) { StartsWith(line, "data:") }

  /** Field names the parser knows; any other line counts as data. */
  predicate IsIgnored(line: string) {
    IsComment(line) || StartsWith(line, "id:") || StartsWith(line, "retry:")
  }

  function NameIn(line: string): string
    requires IsEvent(line)
  {
    var name := Trim(line[6..]);
    if name == "" then "message" else name
  }

  function DataIn(line: string): string {
    if !IsData(line) then line
    else if line[5..] != [] && IsSpace(line[5]) then line[6..]
    else line[5..]
  }

  /** The last event field of a group names it. */
  function GroupName(group: seq<string>): string {
    if group == [] then "message" else
      var last := group[|group| - 1];
      if IsEvent(last) then NameIn(last) else GroupName(group[..|group| - 1])
  }

  function GroupData(group: seq<string>): seq<string> {
    if group == [] then [] else
      var last := group[|group| - 1];
      GroupData(group[..|group| - 1]) + if IsEvent(last) || IsIgnored(last) then [] else [DataIn(last)]
  }

  /** The payload's own type, when it is a JSON object with one, is a parameter: JSON text is not modelled. */
  type PayloadType = string -> string

  function Resolve(payloadType: PayloadType, name: string, data: string): Event {
    Event(if name == "message" && Trim(payloadType(data)) != "" then Trim(payloadType(data)) else name, data)
  }

  function ReadGroup(p: PayloadType, group: seq<string>): seq<Event> {
    var data := Join(GroupData(group));
    if data == "" || data == "[DONE]" then [] else [Resolve(p, GroupName(group), data)]
  }

  /** How one group of lines is read. */
  type Reader = seq<string> -> seq<Event>

  function GroupReader(p: PayloadType): Reader {
    group => ReadGroup(p, group)
  }

  function ReadLines(read: Reader, lines: seq<string>): seq<Event>
    decreases |lines|
  {
    if lines == [] then [] else
      var i := FirstBlank(lines);
      read(lines[..i]) + if i < |lines| then ReadLines(read, lines[i + 1..]) else []
  }

  function ReadText(p: PayloadType, text: string): seq<Event> {
    ReadLines(GroupReader(p), Lines(text))
  }

  // ----- texts and line lists can be read piece by piece -----

  predicate NoNewline(s: string) { forall k :: 0 <= k < |s| ==> s[k] != '\n' }

  predicate NoBlank(lines: seq<string>) { forall k :: 0 <= k < |lines| ==> lines[k] != "" }

  /** A text made of complete lines. */
  predicate Complete(text: string) { text == [] || text[|text| - 1] == '\n' }

  lemma NewlineAt(s: string, i: nat)
    requires i <= |s| && (i < |s| ==> s[i] == '\n') && forall k :: 0 <= k < i ==> s[k] != '\n'
    ensures Newline(s) == i
  {
  }

  lemma Assoc<T>(a: seq<T>, b: seq<T>, c: seq<T>)
    ensures a + b + c == a + (b + c)
  {
  }

  /** The first line of a text that has a newline, and what follows it. */
  lemma FirstLine(text: string, rest: string, i: nat)
    requires i < |text| && text[i] == '\n' && forall k :: 0 <= k < i ==> text[k] != '\n'
    ensures Lines(text + rest) == [StripReturn(text[..i])] + Lines(text[i + 1..] + rest)
  {
    NewlineAt(text + rest, i);
    assert (text + rest)[..i] == text[..i];
    assert (text + rest)[i + 1..] == text[i + 1..] + rest;
  }

  lemma LinesAfter(text: string, i: nat)
    requires i == Newline(text) && i < |text|
    ensures Lines(text) == [StripReturn(text[..i])] + Lines(text[i + 1..])
  {
  }

  lemma LinesSplitStep(done: string, rest: string, i: nat)
    requires i == Newline(done) && i < |done|
    requires Lines(done[i + 1..] + rest) == Lines(done[i + 1..]) + Lines(rest)
    ensures Lines(done + rest) == Lines(done) + Lines(rest)
  {
    FirstLine(done, rest, i);
    LinesAfter(done, i);
    Assoc([StripReturn(done[..i])], Lines(done[i + 1..]), Lines(rest));
  }

  lemma {:induction false} LinesSplit(done: string, rest: string)
    requires Complete(done)
    ensures Lines(done + rest) == Lines(done) + Lines(rest)
    decreases |done|
  {
    if done == [] {
      assert done + rest == rest;
    } else {
      var i := Newline(done);
      assert done[|done| - 1] == '\n';
      LinesSplit(done[i + 1..], rest);
      LinesSplitStep(done, rest, i);
    }
  }

  lemma OneLine(line: string)
    requires NoNewline(line)
    ensures Lines(line + "\n") == [StripReturn(line)]
    ensures Lines(line) == if line == "" then [] else [StripReturn(line)]
  {
    NewlineAt(line + "\n", |line|);
    NewlineAt(line, |line|);
    assert (line + "\n")[..|line|] == line;
    assert (line + "\n")[|line| + 1..] == "";
    assert line[..|line|] == line;
  }

  lemma FirstBlankAt(lines: seq<string>, i: nat)
    requires i <= |lines| && (i < |lines| ==> lines[i] == "") && forall k :: 0 <= k < i ==> lines[k] != ""
    ensures FirstBlank(lines) == i
  {
  }

  /** The first closed group, and what follows it. */
  lemma FirstGroup(read: Reader, lines: seq<string>, rest: seq<string>, i: nat)
    requires i < |lines| && lines[i] == "" && forall k :: 0 <= k < i ==> lines[k] != ""
    ensures ReadLines(read, lines + rest) == read(lines[..i]) + ReadLines(read, lines[i + 1..] + rest)
  {
    FirstBlankAt(lines + rest, i);
    assert (lines + rest)[..i] == lines[..i];
    assert (lines + rest)[i + 1..] == lines[i + 1..] + rest;
  }

  lemma GroupsAfter(read: Reader, lines: seq<string>, i: nat)
    requires i == FirstBlank(lines) && i < |lines|
    ensures ReadLines(read, lines) == read(lines[..i]) + ReadLines(read, lines[i + 1..])
  {
  }

  lemma NothingClosed(read: Reader, rest: seq<string>)
    ensures ReadLines(read, [] + rest) == ReadLines(read, []) + ReadLines(read, rest)
  {
    assert [] + rest == rest;
  }

  lemma ReadSplitStep(read: Reader, closed: seq<string>, rest: seq<string>, i: nat)
    requires i == FirstBlank(closed) && i < |closed|
    requires ReadLines(read, closed[i + 1..] + rest) == ReadLines(read, closed[i + 1..]) + ReadLines(read, rest)
    ensures ReadLines(read, closed + rest) == ReadLines(read, closed) + ReadLines(read, rest)
  {
    FirstGroup(read, closed, rest, i);
    GroupsAfter(read, closed, i);
    Assoc(read(closed[..i]), ReadLines(read, closed[i + 1..]), ReadLines(read, rest));
  }

  /** Groups that are closed by a blank line are read independently of what follows. */
  lemma {:induction false} ReadSplit(read: Reader, closed: seq<string>, rest: seq<string>)
    requires closed == [] || closed[|closed| - 1] == ""
    ensures ReadLines(read, closed + rest) == ReadLines(read, closed) + ReadLines(read, rest)
    decreases |closed|
  {
    if closed == [] {
      NothingClosed(read, rest);
    } else {
      var i := FirstBlank(closed);
      assert closed[|closed| - 1] == "";
      ReadSplit(read, closed[i + 1..], rest);
      ReadSplitStep(read, closed, rest, i);
    }
  }

  lemma OneGroup(read: Reader, group: seq<string>)
    requires NoBlank(group) && read([]) == []
    ensures ReadLines(read, group + [""]) == read(group)
    ensures ReadLines(read, group) == read(group)
  {
    FirstBlankAt(group + [""], |group|);
    FirstBlankAt(group, |group|);
    assert (group + [""])[..|group|] == group;
    assert (group + [""])[|group| + 1..] == [];
    assert group[..|group|] == group;
  }

  /** How many of the lines belong to closed groups: up to and including the last blank one. */
  function ClosedCount(lines: seq<string>): (n: nat)
    ensures n <= |lines| && (n > 0 ==> lines[n - 1] == "") && NoBlank(lines[n..])
  {
    if lines == [] then 0
    else if lines[|lines| - 1] == "" then |lines|
    else
      var n := ClosedCount(lines[..|lines| - 1]);
      assert lines[n..] == lines[..|lines| - 1][n..] + [lines[|lines| - 1]];
      n
  }

  /** What the fields of the parser hold between two lines. */
  datatype Progress = Progress(currentEvent: string, dataLines: seq<string>, events: seq<Event>)

  function ReadSoFar(p: PayloadType, lines: seq<string>): Progress {
    var n := ClosedCount(lines);
    Progress(GroupName(lines[n..]), GroupData(lines[n..]), ReadLines(GroupReader(p), lines[..n]))
  }

  function Flushed(p: PayloadType, s: Progress): Progress {
    var data := Join(s.dataLines);
    Progress("message", [],
             s.events + if data == "" || data == "[DONE]" then [] else [Resolve(p, s.currentEvent, data)])
  }

  function Absorb(p: PayloadType, s: Progress, line: string): Progress {
    if line == "" then Flushed(p, s)
    else if IsComment(line) then s
    else if IsEvent(line) then s.(currentEvent := NameIn(line))
    else if !IsData(line) && IsIgnored(line) then s
    else s.(dataLines := s.dataLines + [DataIn(line)])
  }

  lemma ClosedSnoc(lines: seq<string>, line: string)
    ensures ClosedCount(lines + [line]) == if line == "" then |lines| + 1 else ClosedCount(lines)
  {
    assert (lines + [line])[..|lines|] == lines;
  }

  lemma GroupSnoc(group: seq<string>, line: string)
    ensures GroupName(group + [line]) == if IsEvent(line) then NameIn(line) else GroupName(group)
    ensures GroupData(group + [line])
         == GroupData(group) + if IsEvent(line) || IsIgnored(line) then [] else [DataIn(line)]
  {
    assert (group + [line])[..|group|] == group;
  }

  lemma AbsorbBlank(p: PayloadType, lines: seq<string>)
    ensures ReadSoFar(p, lines + [""]) == Flushed(p, ReadSoFar(p, lines))
  {
    ClosedSnoc(lines, "");
    FlushReads(p, lines);
    assert (lines + [""])[..|lines| + 1] == lines + [""] && (lines + [""])[|lines| + 1..] == [];
  }

  lemma AbsorbField(p: PayloadType, lines: seq<string>, line: string)
    requires line != ""
    ensures ReadSoFar(p, lines + [line]) == Absorb(p, ReadSoFar(p, lines), line)
  {
    var n := ClosedCount(lines);
    ClosedSnoc(lines, line);
    assert (lines + [line])[..n] == lines[..n] && (lines + [line])[n..] == lines[n..] + [line];
    GroupSnoc(lines[n..], line);
    FieldsDiffer(line);
  }

  lemma AbsorbReads(p: PayloadType, lines: seq<string>, line: string)
    ensures ReadSoFar(p, lines + [line]) == Absorb(p, ReadSoFar(p, lines), line)
  {
    if line == "" { AbsorbBlank(p, lines); } else { AbsorbField(p, lines, line); }
  }

  /** The first character tells the known fields apart. */
  lemma FieldsDiffer(line: string)
    ensures IsData(line) ==> !IsIgnored(line) && !IsEvent(line)
    ensures IsEvent(line) ==> !IsIgnored(line)
  {
    assert IsData(line) ==> line[0] == "data:"[0];
    assert IsEvent(line) ==> line[0] == "event:"[0];
    assert IsComment(line) ==> line[0] == ":"[0];
    assert StartsWith(line, "id:") ==> line[0] == "id:"[0];
    assert StartsWith(line, "retry:") ==> line[0] == "retry:"[0];
  }

  lemma ReadClosedThenOpen(read: Reader, closed: seq<string>, open: seq<string>)
    requires closed == [] || closed[|closed| - 1] == ""
    requires NoBlank(open) && read([]) == []
    ensures ReadLines(read, closed + open) == ReadLines(read, closed) + read(open)
    ensures ReadLines(read, closed + open + [""]) == ReadLines(read, closed) + read(open)
  {
    OneGroup(read, open);
    ReadSplit(read, closed, open);
    ReadSplit(read, closed, open + [""]);
    Assoc(closed, open, [""]);
  }

  /** Flushing reads the open group, whether a blank line or the end of the text closes it. */
  lemma FlushReads(p: PayloadType, lines: seq<string>)
    ensures Flushed(p, ReadSoFar(p, lines)).events == ReadLines(GroupReader(p), lines)
    ensures ReadLines(GroupReader(p), lines + [""]) == ReadLines(GroupReader(p), lines)
  {
    var n := ClosedCount(lines);
    assert lines[..n] + lines[n..] == lines;
    ReadClosedThenOpen(GroupReader(p), lines[..n], lines[n..]);
  }

  lemma LinesOfNext(done: string, raw: string)
    requires Complete(done) && NoNewline(raw)
    ensures Complete(done + raw + "\n") && Lines(done + raw + "\n") == Lines(done) + [StripReturn(raw)]
  {
    Assoc(done, raw, "\n");
    LinesSplit(done, raw + "\n");
    OneLine(raw);
  }

  lemma NextLine(p: PayloadType, done: string, raw: string)
    requires Complete(done) && NoNewline(raw)
    ensures Complete(done + raw + "\n")
    ensures ReadSoFar(p, Lines(done + raw + "\n")) == Absorb(p, ReadSoFar(p, Lines(done)), StripReturn(raw))
  {
    LinesOfNext(done, raw);
    AbsorbReads(p, Lines(done), StripReturn(raw));
  }

  lemma LastLine(p: PayloadType, done: string, raw: string)
    requires Complete(done) && NoNewline(raw)
    ensures ReadText(p, done + raw) == Flushed(p,
              if raw == "" then ReadSoFar(p, Lines(done))
                  else Absorb(p, ReadSoFar(p, Lines(done)), StripReturn(raw))).events
  {
    LinesSplit(done, raw);
    OneLine(raw);
    assert Lines(done + raw) == if raw == "" then Lines(done) else Lines(done) + [StripReturn(raw)];
    AbsorbReads(p, Lines(done), StripReturn(raw));
    FlushReads(p, Lines(done + raw));
  }

  lemma CutAtNewline(done: string, s: string, i: nat)
    requires i < |s| && s[i] == '\n'
    ensures done + s == done + s[..i] + "\n" + s[i + 1..]
  {
    assert s == s[..i] + ([s[i]] + s[i + 1..]);
    assert [s[i]] == "\n";
  }

  // ----- the parser -----

  class SseParser {
    const payloadType: PayloadType
    var buffer: string
    var currentEvent: string
    var dataLines: seq<string>
    var events: seq<Event>     // what onEvent was called with
    ghost var done: string     // the complete lines fed so far; buffer holds the rest

    ghost function Fed(): string
      reads this
    {
      done + buffer
    }

    ghost function Fields(): Progress
      reads this
    {
      Progress(currentEvent, dataLines, events)
    }

    ghost predicate Valid()
      reads this
    {
      Complete(done) && NoNewline(buffer) && Fields() == ReadSoFar(payloadType, Lines(done))
    }

    constructor (p: PayloadType)
      ensures Valid() && Fed() == "" && payloadType == p
    {
      payloadType := p;
      buffer, currentEvent, dataLines, events := "", "message", [], [];
      done := "";
    }

    method Flush()
      modifies `currentEvent, `dataLines, `events
      ensures Fields() == Flushed(payloadType, old(Fields())) && old(events) <= events
    {
      if |dataLines| == 0 {
        currentEvent := "message";
        return;
      }
      var dataText := Join(dataLines);
      dataLines := [];
      if dataText == "" || dataText == "[DONE]" {
        currentEvent := "message";
        return;
      }
      var name := currentEvent;
      if name == "message" {
        var dataType := Trim(payloadType(dataText));
        if dataType != "" { name := dataType; }
      }
      events := events + [Event(name, dataText)];
      currentEvent := "message";
    }

    method ProcessLine(line: string)
      modifies `currentEvent, `dataLines, `events
      ensures Fields() == Absorb(payloadType, old(Fields()), line) && old(events) <= events
    {
      if line == "" {
        Flush();
        return;
      }
      if StartsWith(line, ":") {
        return;
      }
      if StartsWith(line, "event:") {
        currentEvent := NameIn(line);
        return;
      }
      if StartsWith(line, "data:") {
        dataLines := dataLines + [DataIn(line)];
        return;
      }
      if StartsWith(line, "id:") || StartsWith(line, "retry:") {
        return;
      }
      dataLines := dataLines + [line];
    }

    method Feed(text: string)
      requires Valid()
      modifies this
      ensures Valid() && Fed() == old(Fed()) + text && old(events) <= events
    {
      buffer := buffer + text;
      ghost var all := Fed();
      assert all == old(Fed()) + text;
      var newline := Newline(buffer);
      while newline < |buffer|
        invariant Complete(done) && Fields() == ReadSoFar(payloadType, Lines(done))
        invariant Fed() == all && old(events) <= events
        invariant newline == Newline(buffer)
        decreases |buffer|
      {
        TakeLine(newline);
        newline := Newline(buffer);
      }
    }

    /** The body of the loop: the first complete line of the buffer is processed. */
    method TakeLine(newline: nat)
      requires Complete(done) && Fields() == ReadSoFar(payloadType, Lines(done))
      requires newline == Newline(buffer) && newline < |buffer|
      modifies this
      ensures Complete(done) && Fields() == ReadSoFar(payloadType, Lines(done))
      ensures Fed() == old(Fed()) && |buffer| < |old(buffer)| && old(events) <= events
    {
      var raw := buffer[..newline];
      var line := raw;
      if line != [] && line[|line| - 1] == '\r' { line := line[..|line| - 1]; }
      NextLine(payloadType, done, raw);
      CutAtNewline(done, buffer, newline);
      buffer := buffer[newline + 1..];
      done := done + raw + "\n";
      ProcessLine(line);
    }

    /** Whatever the chunks were, the events are those of the whole text. */
    method End()
      requires Valid()
      modifies this
      ensures events == ReadText(payloadType, old(Fed()))
      ensures buffer == "" && currentEvent == "message" && dataLines == []
    {
      ghost var expected := ReadText(payloadType, Fed());
      LastLine(payloadType, done, buffer);
      if buffer != "" {
        var line := buffer;
        if line[|line| - 1] == '\r' { line := line[..|line| - 1]; }
        buffer := "";
        ProcessLine(line);
      }
      assert Flushed(payloadType, Fields()).events == expected;
      Flush();
    }
  }

  function Concat(chunks: seq<string>): string {
    if chunks == [] then "" else Concat(chunks[..|chunks| - 1]) + chunks[|chunks| - 1]
  }

  /** Reading a stream chunk by chunk: the cuts do not matter. */
  method ParseChunks(p: PayloadType, chunks: seq<string>) returns (events: seq<Event>)
    ensures events == ReadText(p, Concat(chunks))
  {
    var parser := new SseParser(p);
    for i := 0 to |chunks|
      invariant parser.Valid() && fresh(parser) && parser.payloadType == p
      invariant parser.Fed() == Concat(chunks[..i])
    {
      parser.Feed(chunks[i]);
      assert chunks[..i + 1][..i] == chunks[..i];
    }
    assert chunks[..|chunks|] == chunks;
    parser.End();
    events := parser.events;
  }

  method ParseSse(p: PayloadType, raw: string) returns (events: seq<Event>)
    ensures events == ReadText(p, raw)
  {
    var parser := new SseParser(p);
    parser.Feed(raw);
    assert parser.Fed() == raw;
    parser.End();
    events := parser.events;
  }
}
