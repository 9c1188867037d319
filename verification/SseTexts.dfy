/** What the event-stream parser makes of literal texts, line by line of the format. */
module SseTexts {
  import opened SseParser

  /** The code points that count as white space. */
  predicate White(c: char) {
    c as int in {0x09, 0x0A, 0x0B, 0x0C, 0x0D, 0x20, 0xA0, 0x1680, 0x2000, 0x2001, 0x2002, 0x2003, 0x2004, 0x2005,
                 0x2006, 0x2007, 0x2008, 0x2009, 0x200A, 0x2028, 0x2029, 0x202F, 0x205F, 0x3000, 0xFEFF}
  }

  /** A line without its newline, and without a carriage return that would go with it. */
  predicate Plain(v: string) { NoNewline(v) && (v == "" || v[|v| - 1] != '\r') }

  /** The one event a group can give. */
  function Delivered(p: PayloadType, name: string, data: string): seq<Event> {
    if data == "" || data == "[DONE]" then []
    else if name == "message" && Trim(p(data)) != "" then [Event(Trim(p(data)), data)]
    else [Event(name, data)]
  }

  // ----- trimming -----

  predicate AllWhite(s: string) { forall k :: 0 <= k < |s| ==> White(s[k]) }

  /** t is what is left of s without the white space at both ends. */
  predicate Middle(s: string, t: string, i: nat, j: nat) {
    && i <= j <= |s| && t == s[i..j] && AllWhite(s[..i]) && AllWhite(s[j..])
    && (t != "" ==> !White(t[0]) && !White(t[|t| - 1]))
  }

  lemma {:induction false} TrimIsMiddle(s: string) returns (i: nat, j: nat)
    ensures Middle(s, Trim(s), i, j)
  {
    if s == "" {
      i, j := 0, 0;
    } else if IsSpace(s[0]) {
      i, j := TrimIsMiddle(s[1..]);
      WhiteInFront(s, Trim(s), i, j);
      i, j := i + 1, j + 1;
    } else if IsSpace(s[|s| - 1]) {
      i, j := TrimIsMiddle(s[..|s| - 1]);
      WhiteBehind(s, Trim(s), i, j);
    } else {
      i, j := 0, |s|;
      assert s[i..j] == s;
    }
  }

  lemma WhiteInFront(s: string, t: string, i: nat, j: nat)
    requires s != "" && White(s[0]) && Middle(s[1..], t, i, j)
    ensures Middle(s, t, i + 1, j + 1)
  {
    assert s[1..][i..j] == s[i + 1..j + 1] && s[1..][j..] == s[j + 1..];
    assert s[..i + 1] == [s[0]] + s[1..][..i];
  }

  lemma WhiteBehind(s: string, t: string, i: nat, j: nat)
    requires s != "" && White(s[|s| - 1]) && Middle(s[..|s| - 1], t, i, j)
    ensures Middle(s, t, i, j)
  {
    var init := s[..|s| - 1];
    assert init[i..j] == s[i..j] && init[..i] == s[..i];
    assert s[j..] == init[j..] + [s[|s| - 1]];
  }

  lemma WhiteIffSpace(c: char)
    ensures IsSpace(c) <==> White(c)
  {
  }

  // ----- the lines of a text -----

  lemma TwoLines(a: string, b: string)
    requires NoNewline(a) && NoNewline(b)
    ensures Lines(a + "\n" + b + "\n") == [StripReturn(a), StripReturn(b)]
  {
    LinesOfNext("", a);
    assert "" + a + "\n" == a + "\n";
    assert Lines("") == [];
    LinesOfNext(a + "\n", b);
  }

  lemma BlankBehind(s: string)
    ensures Lines(s + "\n\n") == Lines(s + "\n") + [""]
  {
    LinesOfNext(s + "\n", "");
    assert s + "\n" + "" == s + "\n" && "\n\n" == "\n" + "\n";
    Assoc(s, "\n", "\n");
  }

  /** Lines closed by a blank one. */
  lemma BlockReads(p: PayloadType, text: string, group: seq<string>)
    requires Lines(text + "\n") == group && NoBlank(group)
    ensures ReadText(p, text + "\n\n") == ReadGroup(p, group)
  {
    BlankBehind(text);
    OneGroup(GroupReader(p), group);
  }

  lemma OneBlock(p: PayloadType, a: string)
    requires Plain(a) && a != ""
    ensures ReadText(p, a + "\n\n") == ReadGroup(p, [a])
  {
    OneLine(a);
    BlockReads(p, a, [a]);
  }

  lemma TwoBlock(p: PayloadType, a: string, b: string)
    requires Plain(a) && Plain(b) && a != "" && b != ""
    ensures ReadText(p, a + "\n" + b + "\n\n") == ReadGroup(p, [a, b])
  {
    TwoLines(a, b);
    BlockReads(p, a + "\n" + b, [a, b]);
  }

  // ----- one group -----

  lemma DataLine(c: char, v: string)
    ensures var line := "data:" + [c] + v;
            IsData(line) && !IsEvent(line) && !IsIgnored(line) && DataIn(line) == if White(c) then v else [c] + v
  {
    var line := "data:" + [c] + v;
    assert line[..5] == "data:";
    assert line[5] == c && line[5..] == [c] + v && line[6..] == v;
    FieldsDiffer(line);
    WhiteIffSpace(c);
  }

  lemma OneGroupReads(p: PayloadType, line: string)
    ensures ReadGroup(p, [line])
         == if IsEvent(line) || IsIgnored(line) then [] else Delivered(p, "message", DataIn(line))
  {
    GroupSnoc([], line);
    assert [] + [line] == [line];
    if !IsEvent(line) && !IsIgnored(line) { assert GroupData([line]) == [DataIn(line)]; }
  }

  /** Of the text behind "data:" the first character goes exactly when it is white space, and nothing else. */
  lemma DataReads(p: PayloadType, c: char, v: string)
    requires Plain([c] + v)
    ensures ReadText(p, "data:" + [c] + v + "\n\n") == Delivered(p, "message", if White(c) then v else [c] + v)
    ensures ReadText(p, "data:" + "\n\n") == []
  {
    var line := "data:" + [c] + v;
    assert forall k :: 0 <= k < |line| ==> line[k] == if k < 5 then "data:"[k] else ([c] + v)[k - 5];
    DataLine(c, v);
    OneBlock(p, line);
    OneGroupReads(p, line);
    NoData(p);
  }

  lemma NoData(p: PayloadType)
    ensures ReadText(p, "data:" + "\n\n") == []
  {
    var line := "data:";
    FieldsDiffer(line);
    OneBlock(p, line);
    OneGroupReads(p, line);
  }

  lemma Spaced(v: string)
    ensures "data:" + [' '] + v == "data: " + v
  {
  }

  lemma SpacedLine(v: string)
    ensures var line := "data: " + v; IsData(line) && !IsEvent(line) && !IsIgnored(line) && DataIn(line) == v
  {
    Spaced(v);
    DataLine(' ', v);
  }

  /** The usual spelling: exactly one space goes. */
  lemma SpacedDataReads(p: PayloadType, v: string)
    requires Plain(v)
    ensures ReadText(p, "data: " + v + "\n\n") == Delivered(p, "message", v)
  {
    Spaced(v);
    DataReads(p, ' ', v);
  }

  /** The end marker gives nothing. */
  lemma DoneIsSilent(p: PayloadType)
    ensures ReadText(p, "data: [DONE]\n\n") == []
  {
    SpacedDataReads(p, "[DONE]");
    DoneText();
  }

  lemma DoneText()
    ensures "data: " + "[DONE]" + "\n\n" == "data: [DONE]\n\n"
  {
  }

  /** Two data lines of a group make one event, a newline between them. */
  lemma TwoDataRead(p: PayloadType, a: string, b: string)
    requires Plain(a) && Plain(b)
    ensures ReadText(p, "data: " + a + "\n" + ("data: " + b) + "\n\n") == Delivered(p, "message", a + "\n" + b)
  {
    SpacedLine(a);
    SpacedLine(b);
    PlainBehind("data: ", a);
    PlainBehind("data: ", b);
    TwoBlock(p, "data: " + a, "data: " + b);
    TwoInGroup(p, "data: " + a, "data: " + b);
  }

  lemma PlainBehind(field: string, v: string)
    requires Plain(field) && Plain(v)
    ensures Plain(field + v)
  {
  }

  lemma TwoInGroup(p: PayloadType, a: string, b: string)
    requires !IsEvent(b) && !IsIgnored(b) && !IsEvent(a) && !IsIgnored(a)
    ensures ReadGroup(p, [a, b]) == Delivered(p, "message", DataIn(a) + "\n" + DataIn(b))
  {
    GroupSnoc([], a);
    GroupSnoc([a], b);
    assert [] + [a] == [a] && [a] + [b] == [a, b] && [] + [DataIn(a)] == [DataIn(a)];
    JoinTwo(DataIn(a), DataIn(b));
  }

  lemma JoinTwo(a: string, b: string)
    ensures Join([a] + [b]) == a + "\n" + b
  {
    assert ([a] + [b])[1..] == [b];
  }

  lemma NamedGroup(p: PayloadType, a: string, b: string)
    requires !IsEvent(b) && !IsIgnored(b) && IsEvent(a)
    ensures ReadGroup(p, [a, b]) == Delivered(p, NameIn(a), DataIn(b))
  {
    FieldsDiffer(a);
    GroupSnoc([], a);
    GroupSnoc([a], b);
    assert [] + [a] == [a] && [a] + [b] == [a, b] && [] + [DataIn(b)] == [DataIn(b)];
  }

  lemma EventLine(n: string)
    ensures var line := "event:" + n; IsEvent(line) && NameIn(line) == if Trim(n) == "" then "message" else Trim(n)
  {
    assert ("event:" + n)[..6] == "event:" && ("event:" + n)[6..] == n;
  }

  /** The event field names the group; an empty name, and none, leaves it to the payload. */
  lemma NamedReads(p: PayloadType, n: string, v: string)
    requires Plain(n) && Plain(v)
    ensures ReadText(p, "event:" + n + "\n" + ("data: " + v) + "\n\n")
         == Delivered(p, if Trim(n) == "" then "message" else Trim(n), v)
  {
    EventLine(n);
    PlainBehind("event:", n);
    NamedAs(p, "event:" + n, if Trim(n) == "" then "message" else Trim(n), v);
  }

  lemma NamedAs(p: PayloadType, line: string, name: string, v: string)
    requires Plain(line) && IsEvent(line) && NameIn(line) == name && Plain(v)
    ensures ReadText(p, line + "\n" + ("data: " + v) + "\n\n") == Delivered(p, name, v)
  {
    SpacedLine(v);
    PlainBehind("data: ", v);
    NamedBlock(p, line, "data: " + v);
  }

  lemma NamedBlock(p: PayloadType, a: string, b: string)
    requires Plain(a) && Plain(b) && IsEvent(a) && IsData(b) && !IsEvent(b) && !IsIgnored(b)
    ensures ReadText(p, a + "\n" + b + "\n\n") == Delivered(p, NameIn(a), DataIn(b))
  {
    TwoBlock(p, a, b);
    NamedGroup(p, a, b);
  }

  /** A line that names none of the fields is data as it stands. */
  lemma BareLineReads(p: PayloadType, v: string)
    requires Plain(v) && v != ""
    requires !StartsWith(v, ":") && !StartsWith(v, "id:") && !StartsWith(v, "retry:")
    requires !StartsWith(v, "event:") && !StartsWith(v, "data:")
    ensures ReadText(p, v + "\n\n") == Delivered(p, "message", v)
  {
    OneBlock(p, v);
    OneGroupReads(p, v);
  }

  // ----- lines that add nothing -----

  lemma {:induction false} SoFarWithout(p: PayloadType, before: seq<string>, line: string, after: seq<string>)
    requires line != "" && IsIgnored(line)
    ensures ReadSoFar(p, before + [line] + after) == ReadSoFar(p, before + after)
  {
    if after == [] {
      assert before + [line] + [] == before + [line] && before + [] == before;
      AbsorbReads(p, before, line);
      FieldsDiffer(line);
    } else {
      var init, last := after[..|after| - 1], after[|after| - 1];
      SoFarWithout(p, before, line, init);
      OneMore(p, before + [line] + init, before + init, last);
      assert after == init + [last];
      Assoc(before + [line], init, [last]);
      Assoc(before, init, [last]);
    }
  }

  lemma OneMore(p: PayloadType, lines: seq<string>, others: seq<string>, line: string)
    requires ReadSoFar(p, lines) == ReadSoFar(p, others)
    ensures ReadSoFar(p, lines + [line]) == ReadSoFar(p, others + [line])
  {
    AbsorbReads(p, lines, line);
    AbsorbReads(p, others, line);
  }

  /** Comments, ids and retry times add nothing, wherever they stand. */
  lemma IgnoredLine(p: PayloadType, done: string, line: string, rest: string)
    requires Complete(done) && Plain(line)
    requires StartsWith(line, ":") || StartsWith(line, "id:") || StartsWith(line, "retry:")
    ensures ReadText(p, done + line + "\n" + rest) == ReadText(p, done + rest)
  {
    LinesFrom(done, line, rest);
    LinesSplit(done, rest);
    SoFarWithout(p, Lines(done), line, Lines(rest));
    FlushReads(p, Lines(done) + [line] + Lines(rest));
    FlushReads(p, Lines(done) + Lines(rest));
  }

  // ----- line ends and group ends -----

  /** A carriage return in front of the newline goes with it. */
  lemma ReturnGoes(p: PayloadType, done: string, v: string, rest: string)
    requires Complete(done) && Plain(v)
    ensures ReadText(p, done + (v + "\r") + "\n" + rest) == ReadText(p, done + v + "\n" + rest)
  {
    LinesFrom(done, v, rest);
    LinesFrom(done, v + "\r", rest);
    assert StripReturn(v + "\r") == v;
  }

  lemma LinesFrom(done: string, v: string, rest: string)
    requires Complete(done) && NoNewline(v)
    ensures Lines(done + v + "\n" + rest) == Lines(done) + [StripReturn(v)] + Lines(rest)
  {
    LinesOfNext(done, v);
    LinesSplit(done + v + "\n", rest);
  }

  /** What stands before a blank line is read by itself. */
  lemma BlankLineCuts(p: PayloadType, text: string, rest: string)
    requires text == "" || text[|text| - 1] == '\n'
    ensures ReadText(p, text + "\n" + rest) == ReadText(p, text) + ReadText(p, rest)
  {
    LinesFrom(text, "", rest);
    assert text + "" == text;
    ReadSplit(GroupReader(p), Lines(text) + [""], Lines(rest));
    FlushReads(p, Lines(text));
  }

  /** The end of the text ends its last line and its last group. */
  lemma EndCloses(p: PayloadType, done: string, v: string)
    requires Complete(done) && NoNewline(v)
    ensures ReadText(p, done + v) == ReadText(p, done + v + "\n")
  {
    LinesOfNext(done, v);
    LinesSplit(done, v);
    OneLine(v);
    FlushReads(p, Lines(done));
    assert v == "" ==> StripReturn(v) == "" && Lines(done) + [] == Lines(done);
  }
}
