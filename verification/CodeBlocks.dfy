/** The formatter's own notion of a code block, and what the end of a text says about how it reads on. */
module CodeBlocks {
  import opened Options
  import opened SplitText

  // ----- the formatter's code blocks: (^|\n)```[^\n`]*\n ... (```|$) -----

  /** The end of a run of characters that are neither newline nor backtick. */
  function InfoEnd(s: string, from: nat): (i: nat)
    requires from <= |s|
    ensures from <= i <= |s| && (i < |s| ==> s[i] == '\n' || s[i] == '`')
    ensures forall k :: from <= k < i ==> s[k] != '\n' && s[k] != '`'
    decreases |s| - from
  {
    if from < |s| && s[from] != '\n' && s[from] != '`' then InfoEnd(s, from + 1) else from
  }

  /** Where the marker of a block opening at position p starts. */
  function MarkerAt(s: string, p: nat): (m: Option<nat>)
    ensures m.Some? ==> FenceAt(s, m.value) && p <= m.value <= p + 1
  {
    if p == 0 && FenceAt(s, 0) then Some(0)
    else if p < |s| && s[p] == '\n' && FenceAt(s, p + 1) then Some(p + 1)
    else None
  }

  /** Where the body of a block opening at position p starts. */
  function BodyAt(s: string, p: nat): (b: Option<nat>)
    ensures b.Some? ==> p + 3 < b.value <= |s| && s[b.value - 1] == '\n'
  {
    var m := MarkerAt(s, p);
    if m.None? then None else
      var e := InfoEnd(s, m.value + 3);
      if e < |s| && s[e] == '\n' then Some(e + 1) else None
  }

  /** The first fence from a position on, or the end of the text. */
  function FenceFrom(s: string, from: nat): (i: nat)
    requires from <= |s|
    ensures from <= i <= |s| && (i < |s| ==> FenceAt(s, i))
    ensures forall k :: from <= k < i ==> !FenceAt(s, k)
    decreases |s| - from
  {
    if from == |s| || FenceAt(s, from) then from else FenceFrom(s, from + 1)
  }

  /** Where reading goes on from a position outside any block; None when a block opens there that never closes. */
  function StepTo(s: string, from: nat): (n: Option<nat>)
    requires from < |s|
    ensures n.Some? ==> from < n.value <= |s|
  {
    var b := BodyAt(s, from);
    if b.None? then Some(from + 1) else
      var close := FenceFrom(s, b.value);
      if close == |s| then None else Some(close + 3)
  }

  /** Reading from a position outside any block: does the text end inside one? */
  predicate EndsOpen(s: string, from: nat := 0)
    decreases |s| - from
  {
    from < |s| && (StepTo(s, from).None? || EndsOpen(s, StepTo(s, from).value))
  }

  // ----- the loop over regular-expression matches -----

  datatype Match = Match(index: nat, lastIndex: nat)

  /** `blocks.exec(chunk)` from a given lastIndex. */
  function Exec(s: string, from: nat): (m: Option<Match>)
    ensures m.Some? ==> from <= m.value.index < m.value.lastIndex <= |s|
    decreases |s| - from
  {
    if from >= |s| then None
    else
      var b := BodyAt(s, from);
      if b.None? then Exec(s, from + 1)
      else
        var close := FenceFrom(s, b.value);
        Some(Match(from, if close == |s| then |s| else close + 3))
  }

  /** What one turn of the matching loop tests. */
  predicate Closes(s: string, m: Match)
    requires m.index <= m.lastIndex <= |s|
  {
    m.lastIndex - m.index >= 3 && s[m.index..m.lastIndex][m.lastIndex - m.index - 3..] == FENCE
  }

  lemma ClosesIff(s: string, m: Match)
    requires m.index <= m.lastIndex <= |s|
    ensures Closes(s, m) <==> FenceAt(s, m.lastIndex - 3) && m.index + 3 <= m.lastIndex
  {
    if m.lastIndex - m.index >= 3 {
      var to := m.lastIndex;
      assert s[m.index..to][to - m.index - 3..] == [s[to - 3], s[to - 2], s[to - 1]];
    }
  }

  lemma ClosesAtFence(s: string, from: nat, b: nat)
    requires from < |s| && BodyAt(s, from) == Some(b)
    ensures var close := FenceFrom(s, b);
            Closes(s, Match(from, if close == |s| then |s| else close + 3)) <==> close < |s|
  {
    var close := FenceFrom(s, b);
    if close == |s| {
      ClosesIff(s, Match(from, |s|));
      NoFenceAtEnd(s, b);
    } else {
      ClosesIff(s, Match(from, close + 3));
    }
  }

  lemma NoFenceAtEnd(s: string, b: nat)
    requires 0 < b <= |s| && s[b - 1] == '\n' && FenceFrom(s, b) == |s|
    ensures !FenceAt(s, |s| - 3)
  {
  }

  /** What it learns: a closed match tells nothing of how the text ends, and one that is not closed is the last. */
  lemma {:induction false} ExecStep(s: string, from: nat)
    ensures match Exec(s, from)
            case None => !EndsOpen(s, from)
            case Some(m) =>
              if Closes(s, m) then EndsOpen(s, from) == EndsOpen(s, m.lastIndex)
              else EndsOpen(s, from) && m.lastIndex == |s|
    decreases |s| - from
  {
    if from < |s| {
      var b := BodyAt(s, from);
      if b.None? { ExecStep(s, from + 1); } else { ClosesAtFence(s, from, b.value); }
    }
  }

  method EndsInsideFence(chunk: string) returns (open: bool)
    ensures open == EndsOpen(chunk)
  {
    open := false;
    var lastIndex := 0;
    var m := Exec(chunk, lastIndex);
    while m.Some?
      invariant lastIndex <= |chunk| && m == Exec(chunk, lastIndex)
      invariant open ==> lastIndex == |chunk| && EndsOpen(chunk)
      invariant !open ==> EndsOpen(chunk) == EndsOpen(chunk, lastIndex)
      decreases |chunk| - lastIndex
    {
      ExecStep(chunk, lastIndex);
      var text := chunk[m.value.index..m.value.lastIndex];
      open := !(|text| >= 3 && text[|text| - 3..] == FENCE);
      lastIndex := m.value.lastIndex;
      m := Exec(chunk, lastIndex);
    }
    ExecStep(chunk, lastIndex);
  }

  // ----- closing an open block -----

  lemma InfoEndAt(s: string, from: nat, i: nat)
    requires from <= i <= |s| && (i < |s| ==> s[i] == '\n' || s[i] == '`')
    requires forall k :: from <= k < i ==> s[k] != '\n' && s[k] != '`'
    ensures InfoEnd(s, from) == i
  {
  }

  lemma FenceFromAt(s: string, from: nat, i: nat)
    requires from <= i <= |s| && (i < |s| ==> FenceAt(s, i)) && forall k :: from <= k < i ==> !FenceAt(s, k)
    ensures FenceFrom(s, from) == i
  {
  }

  /** Without a marker further on, no block opens. */
  lemma {:induction false} NoBlockAfter(s: string, from: nat)
    requires from > 0 && forall k :: from < k ==> !FenceAt(s, k)
    ensures !EndsOpen(s, from)
    decreases |s| - from
  {
    if from < |s| {
      assert MarkerAt(s, from) == None;
      NoBlockAfter(s, from + 1);
    }
  }

  /** Appending the closing marker opens no block inside s, save by ending an opener that had no newline yet. */
  lemma BodyOfClosed(s: string, p: nat)
    requires p < |s|
    ensures BodyAt(s, p).Some? ==> BodyAt(Closed(s), p) == BodyAt(s, p)
    ensures BodyAt(s, p).None? && BodyAt(Closed(s), p).Some? ==>
              BodyAt(Closed(s), p) == Some(|s| + 1) && forall k :: p + 1 < k ==> !FenceAt(s, k)
  {
    var closed := Closed(s);
    FencesOfClosed(s, p);
    FencesOfClosed(s, p + 1);
    assert MarkerAt(closed, p) == MarkerAt(s, p);
    if MarkerAt(s, p).Some? {
      var from := MarkerAt(s, p).value + 3;
      var e := InfoEnd(s, from);
      assert closed[|s|] == '\n' && forall k :: 0 <= k < |s| ==> closed[k] == s[k];
      InfoEndAt(closed, from, e);
    }
  }

  lemma FenceFromClosed(s: string, from: nat)
    requires from <= |s|
    ensures FenceFrom(Closed(s), from) == if FenceFrom(s, from) == |s| then |s| + 1 else FenceFrom(s, from)
  {
    forall k ensures FenceAt(Closed(s), k) <==> FenceAt(s, k) || k == |s| + 1 { FencesOfClosed(s, k); }
    FenceFromAt(Closed(s), from, if FenceFrom(s, from) == |s| then |s| + 1 else FenceFrom(s, from));
  }

  lemma SkipStep(s: string, from: nat)
    requires from < |s| && BodyAt(s, from).None?
    ensures EndsOpen(s, from) == EndsOpen(s, from + 1)
  {
  }

  lemma BlockStep(s: string, from: nat, body: nat)
    requires from < |s| && BodyAt(s, from) == Some(body)
    ensures var close := FenceFrom(s, body);
            EndsOpen(s, from) == (close == |s| || EndsOpen(s, close + 3))
  {
  }

  /** While s still has an open block to come, the closing marker opens nothing earlier. */
  lemma ClosedSkips(s: string, from: nat)
    requires from < |s| && BodyAt(s, from).None? && EndsOpen(s, from)
    ensures BodyAt(Closed(s), from).None?
  {
    SkipStep(s, from);
    BodyOfClosed(s, from);
    if BodyAt(Closed(s), from).Some? { NoBlockAfter(s, from + 1); }
  }

  /** A block closes in s where it closes with the marker appended, or at that marker. */
  lemma ClosedStep(s: string, from: nat)
    requires from < |s| && EndsOpen(s, from)
    ensures StepTo(Closed(s), from) == if StepTo(s, from).Some? then StepTo(s, from) else Some(|s| + 4)
  {
    if BodyAt(s, from).None? {
      ClosedSkips(s, from);
    } else {
      BodyOfClosed(s, from);
      FenceFromClosed(s, BodyAt(s, from).value);
    }
  }

  /** The one closing marker is enough. */
  lemma {:induction false} ClosingCloses(s: string, from: nat)
    requires EndsOpen(s, from)
    ensures !EndsOpen(Closed(s), from)
    decreases |s| - from
  {
    ClosedStep(s, from);
    if StepTo(s, from).Some? { ClosingCloses(s, StepTo(s, from).value); }
  }

  /** A text without any marker has no block to end inside. */
  lemma {:induction false} NoFenceNotOpen(s: string, from: nat)
    requires !HasFence(s)
    ensures !EndsOpen(s, from)
    decreases |s| - from
  {
    if from < |s| { NoFenceNotOpen(s, from + 1); }
  }

  // ----- reading on past the end of a text -----

  /** Reading from a position inside a block. */
  predicate InBlock(s: string, from: nat)
    requires from <= |s|
  {
    var close := FenceFrom(s, from);
    close == |s| || EndsOpen(s, close + 3)
  }

  /** No run of backticks goes from one text into the next. */
  predicate Apart(t: string, u: string) {
    t == "" || u == "" || t[|t| - 1] != '`' || u[0] != '`'
  }

  lemma FencesBefore(t: string, u: string, i: nat)
    requires Apart(t, u) && i < |t|
    ensures FenceAt(t + u, i) <==> FenceAt(t, i)
  {
    if i + 3 > |t| && i + 3 <= |t + u| { assert (t + u)[|t| - 1] != '`' || (t + u)[|t|] != '`'; }
  }

  lemma FenceFromBefore(t: string, u: string, from: nat)
    requires Apart(t, u) && from <= |t|
    ensures FenceFrom(t + u, from) == if FenceFrom(t, from) < |t| then FenceFrom(t, from) else FenceFrom(t + u, |t|)
  {
    forall k | from <= k < |t| ensures FenceAt(t + u, k) <==> FenceAt(t, k) { FencesBefore(t, u, k); }
    FenceFromAt(t + u, from, if FenceFrom(t, from) < |t| then FenceFrom(t, from) else FenceFrom(t + u, |t|));
  }

  /** The opener at p has no newline yet: its info runs to the end of the text. */
  predicate Unfinished(t: string, p: nat) {
    MarkerAt(t, p).Some? && InfoEnd(t, MarkerAt(t, p).value + 3) == |t|
  }

  /** What opens before the end of a text opens the same in a longer one; only an unfinished opener may change. */
  lemma BodyBefore(t: string, u: string, p: nat)
    requires Apart(t, u) && p + 1 < |t|
    ensures MarkerAt(t + u, p) == MarkerAt(t, p)
    ensures !Unfinished(t, p) ==> BodyAt(t + u, p) == BodyAt(t, p)
  {
    FencesBefore(t, u, 0);
    FencesBefore(t, u, p + 1);
    if MarkerAt(t, p).Some? && !Unfinished(t, p) {
      var from := MarkerAt(t, p).value + 3;
      InfoEndAt(t + u, from, InfoEnd(t, from));
    }
  }

  lemma StepReads(s: string, from: nat)
    requires from < |s|
    ensures EndsOpen(s, from) == (StepTo(s, from).None? || EndsOpen(s, StepTo(s, from).value))
  {
  }

  /** Reading on from inside a block of t: it closes in t, or what follows t is still inside it. */
  lemma InBlockBefore(t: string, u: string, b: nat)
    requires Apart(t, u) && b <= |t|
    ensures var close := FenceFrom(t, b);
            if close < |t| then FenceFrom(t + u, b) == close else FenceFrom(t + u, b) == FenceFrom(t + u, |t|)
    ensures FenceFrom(t, b) == |t| ==> InBlock(t + u, b) == InBlock(t + u, |t|)
  {
    FenceFromBefore(t, u, b);
  }

  lemma BlockReads(s: string, from: nat)
    requires from < |s| && BodyAt(s, from).Some?
    ensures EndsOpen(s, from) == InBlock(s, BodyAt(s, from).value)
  {
  }

  lemma StepBefore(t: string, u: string, from: nat)
    requires Apart(t, u) && from + 1 < |t| && !Unfinished(t, from)
    ensures StepTo(t, from).Some? ==> StepTo(t + u, from) == StepTo(t, from)
    ensures StepTo(t, from).None? ==> EndsOpen(t + u, from) == InBlock(t + u, |t|)
  {
    BodyBefore(t, u, from);
    if BodyAt(t, from).Some? {
      InBlockBefore(t, u, BodyAt(t, from).value);
      if StepTo(t, from).None? { BlockReads(t + u, from); }
    }
  }

  /** Behind an unfinished opener there is no fence, so the text is not open. */
  lemma UnfinishedIsLast(t: string, p: nat)
    requires Unfinished(t, p)
    ensures p < |t| && BodyAt(t, p).None? && !EndsOpen(t, p)
  {
    SkipStep(t, p);
    NoBlockAfter(t, p + 1);
  }

  lemma NoBlockAtEnd(t: string, from: nat)
    requires from + 1 >= |t|
    ensures !EndsOpen(t, from)
  {
  }

  /** A text that ends inside a block: what follows is read from inside it. */
  lemma {:induction false} InsideAtEnd(t: string, u: string, from: nat)
    requires Apart(t, u) && EndsOpen(t, from)
    ensures EndsOpen(t + u, from) == InBlock(t + u, |t|)
    decreases |t| - from
  {
    if from + 1 >= |t| {
      NoBlockAtEnd(t, from);
    } else {
      if Unfinished(t, from) { UnfinishedIsLast(t, from); }
      StepReads(t, from);
      StepBefore(t, u, from);
      if StepTo(t, from).Some? {
        StepReads(t + u, from);
        InsideAtEnd(t, u, StepTo(t, from).value);
      }
    }
  }

  /** An open text stays open over a newline. */
  lemma OpenOverNewline(t: string, from: nat)
    requires EndsOpen(t, from)
    ensures EndsOpen(t + "\n", from)
  {
    InsideAtEnd(t, "\n", from);
    FenceFromAt(t + "\n", |t|, |t| + 1);
  }

  /**
   * A text that would not end open with a newline after it: what follows is read from outside any block, from the
   * last character on.
   */
  lemma {:induction false} OutsideAtEnd(t: string, u: string, from: nat)
    requires Apart(t, u) && from < |t| && t[|t| - 1] != '`' && !EndsOpen(t + "\n", from)
    ensures EndsOpen(t + u, from) == EndsOpen(t + u, |t| - 1)
    decreases |t| - from
  {
    if from + 1 < |t| {
      OutsideStep(t, from);
      StepBefore(t, u, from);
      StepReads(t + u, from);
      OutsideAtEnd(t, u, StepTo(t, from).value);
    }
  }

  /** One step of reading such a text: nothing unfinished here, and a block that opens closes again. */
  lemma OutsideStep(t: string, from: nat)
    requires from + 1 < |t| && t[|t| - 1] != '`' && !EndsOpen(t + "\n", from)
    ensures !Unfinished(t, from) && StepTo(t, from).Some?
    ensures StepTo(t, from).value < |t| && !EndsOpen(t + "\n", StepTo(t, from).value)
  {
    NothingUnfinished(t, from);
    OpensAlike(t, from);
    StepsInside(t, from);
  }

  lemma NothingUnfinished(t: string, from: nat)
    requires from + 1 < |t| && !EndsOpen(t + "\n", from)
    ensures !Unfinished(t, from)
  {
    if Unfinished(t, from) { UnfinishedOpens(t, from); }
  }

  lemma StepsInside(t: string, from: nat)
    requires from + 1 < |t| && t[|t| - 1] != '`' && StepTo(t, from).Some?
    ensures StepTo(t, from).value < |t|
  {
    assert !FenceAt(t, |t| - 3);
  }

  lemma OpensAlike(t: string, from: nat)
    requires from + 1 < |t| && !Unfinished(t, from)
    ensures StepTo(t, from).None? ==> EndsOpen(t + "\n", from)
    ensures StepTo(t, from).Some? ==> EndsOpen(t + "\n", from) == EndsOpen(t + "\n", StepTo(t, from).value)
  {
    StepBefore(t, "\n", from);
    FenceFromAt(t + "\n", |t|, |t| + 1);
  }

  lemma UnfinishedOpens(t: string, p: nat)
    requires Unfinished(t, p) && p + 1 < |t|
    ensures EndsOpen(t + "\n", p)
  {
    var x := t + "\n";
    BodyBefore(t, "\n", p);
    InfoEndAt(x, MarkerAt(t, p).value + 3, |t|);
    BlockStep(x, p, |x|);
  }

  // ----- stranded openers -----

  /** The last line starts a marker and has no backtick after it. */
  predicate LooksLikeMarker(line: string) {
    FenceAt(line, 0) && forall i :: 3 <= i < |line| ==> line[i] != '`'
  }

  /** Where the last line begins. */
  function LineStart(s: string): (i: nat)
    ensures i <= |s| && (i > 0 ==> s[i - 1] == '\n') && forall k :: i <= k < |s| ==> s[k] != '\n'
  {
    LastIndexOf(s, '\n') + 1
  }

  predicate EndsInMarker(s: string) { LooksLikeMarker(s[LineStart(s)..]) }

  /** The text reads as closed, but the newline after it would open a block. */
  predicate Stranded(s: string) { !EndsOpen(s) && EndsOpen(s + "\n") }

  lemma UnfinishedIsMarkerLine(s: string, p: nat)
    requires Unfinished(s, p)
    ensures EndsInMarker(s)
  {
    var m := MarkerAt(s, p).value;
    assert LineStart(s) == m;
    assert FenceAt(s[m..], 0);
  }

  /** Only a marker in the last line can make white space open a block. */
  lemma {:induction false} GapOpensMarker(s: string, gap: string, from: nat)
    requires AllGap(gap) && !EndsOpen(s, from) && EndsOpen(s + gap, from)
    ensures EndsInMarker(s)
    decreases |s| - from
  {
    if from + 1 >= |s| {
      GapAfterEnd(s, gap, from);
    } else if Unfinished(s, from) {
      UnfinishedIsMarkerLine(s, from);
    } else {
      StepReads(s, from);
      StepBefore(s, gap, from);
      StepReads(s + gap, from);
      GapOpensMarker(s, gap, StepTo(s, from).value);
    }
  }

  lemma GapAfterEnd(s: string, gap: string, from: nat)
    requires AllGap(gap) && from + 1 >= |s|
    ensures !EndsOpen(s + gap, from)
  {
    forall k | from <= k ensures !FenceAt(s + gap, k) {
      if k + 3 <= |s + gap| { assert (s + gap)[k + 2] == gap[k + 2 - |s|]; }
    }
    if from == 0 {
      NoFenceNotOpen(s + gap, 0);
    } else {
      NoBlockAfter(s + gap, from);
    }
  }

  /** Behind an open text a marker line closes the block, whatever newline follows. */
  lemma MarkerCloses(t: string, line: string)
    requires EndsOpen(t) && (t == "" || t[|t| - 1] == '\n') && LooksLikeMarker(line)
    ensures !EndsOpen(t + line) && !EndsOpen(t + (line + "\n"))
  {
    MarkerClosesBefore(t, line);
    assert LooksLikeMarker(line + "\n");
    MarkerClosesBefore(t, line + "\n");
  }

  lemma MarkerClosesBefore(t: string, line: string)
    requires EndsOpen(t) && (t == "" || t[|t| - 1] == '\n') && LooksLikeMarker(line)
    ensures !EndsOpen(t + line)
  {
    InsideAtEnd(t, line, 0);
    FenceFromAt(t + line, |t|, |t|);
    OnlyFence(t, line);
    NoBlockAfter(t + line, |t| + 3);
  }

  lemma OnlyFence(t: string, line: string)
    requires LooksLikeMarker(line)
    ensures FenceAt(t + line, |t|) && forall k :: |t| < k ==> !FenceAt(t + line, k)
  {
    forall k | |t| < k ensures !FenceAt(t + line, k) {
      if k + 3 <= |t + line| { assert (t + line)[k + 2] == line[k + 2 - |t|]; }
    }
  }

  /** A marker line behind a newline is an opener without its newline. */
  lemma MarkerUnfinished(t: string, line: string, p: nat)
    requires t == "" || t[|t| - 1] == '\n'
    requires LooksLikeMarker(line) && forall k :: 0 <= k < |line| ==> line[k] != '\n'
    requires p == if t == "" then 0 else |t| - 1
    ensures Unfinished(t + line, p) && p + 1 < |t + line|
  {
    OnlyFence(t, line);
    assert MarkerAt(t + line, p) == Some(|t|);
    InfoEndAt(t + line, |t| + 3, |t + line|);
  }

  /** Behind a text that is not open a marker line is unfinished, and the newline after it opens a block. */
  lemma MarkerOpens(t: string, line: string)
    requires !EndsOpen(t) && (t == "" || t[|t| - 1] == '\n') && LooksLikeMarker(line)
    requires forall k :: 0 <= k < |line| ==> line[k] != '\n'
    ensures !EndsOpen(t + line) && EndsOpen(t + (line + "\n"))
  {
    var p := if t == "" then 0 else |t| - 1;
    MarkerUnfinished(t, line, p);
    UnfinishedIsLast(t + line, p);
    UnfinishedOpens(t + line, p);
    assert (t + line) + "\n" == t + (line + "\n");
    if t != "" {
      NotOpenAtNewline(t);
      OutsideAtEnd(t, line, 0);
      OutsideAtEnd(t, line + "\n", 0);
    }
  }

  /** After a newline there is no opener waiting for one. */
  lemma NotOpenAtNewline(t: string)
    requires t != "" && t[|t| - 1] == '\n' && !EndsOpen(t)
    ensures !EndsOpen(t + "\n")
  {
    if EndsOpen(t + "\n") { GapOpensMarker(t, "\n", 0); }
  }

  /** A marker in the last line opens a block at its newline exactly when the lines before are not open. */
  lemma MarkerOpensIff(s: string)
    requires EndsInMarker(s)
    ensures !EndsOpen(s)
    ensures EndsOpen(s + "\n") <==> !EndsOpen(s[..LineStart(s)])
  {
    var t, line := s[..LineStart(s)], s[LineStart(s)..];
    assert s == t + line && s + "\n" == t + (line + "\n");
    if EndsOpen(t) { MarkerCloses(t, line); } else { MarkerOpens(t, line); }
  }

  /** A text is stranded exactly when its last line is a marker behind lines that are not open. */
  lemma StrandedIff(s: string)
    ensures Stranded(s) <==> EndsInMarker(s) && !EndsOpen(s[..LineStart(s)])
  {
    if EndsInMarker(s) {
      MarkerOpensIff(s);
    } else if Stranded(s) {
      GapOpensMarker(s, "\n", 0);
    }
  }

  /** White space changes nothing behind a text that strands no opener. */
  lemma GapKeeps(s: string, gap: string)
    requires AllGap(gap) && !Stranded(s)
    ensures EndsOpen(s + gap) == EndsOpen(s) && !Stranded(s + gap)
  {
    GapReads(s, gap);
    GapReads(s, gap + "\n");
    assert (s + gap) + "\n" == s + (gap + "\n");
  }

  lemma GapReads(s: string, gap: string)
    requires AllGap(gap) && !Stranded(s)
    ensures EndsOpen(s + gap) == EndsOpen(s)
  {
    if EndsOpen(s) {
      OpenOverGap(s, gap);
    } else if EndsOpen(s + gap) {
      GapOpensMarker(s, gap, 0);
      StrandedIff(s);
      ClosedOverGap(s, gap);
    }
  }

  /** An open text stays open over white space. */
  lemma OpenOverGap(s: string, gap: string)
    requires AllGap(gap) && EndsOpen(s)
    ensures EndsOpen(s + gap)
  {
    InsideAtEnd(s, gap, 0);
    FenceFromAt(s + gap, |s|, |s + gap|);
  }

  /** A marker line behind an open text closes the block, whatever white space follows. */
  lemma ClosedOverGap(s: string, gap: string)
    requires AllGap(gap) && EndsInMarker(s) && EndsOpen(s[..LineStart(s)])
    ensures !EndsOpen(s + gap)
  {
    var t, line := s[..LineStart(s)], s[LineStart(s)..];
    assert s + gap == t + (line + gap);
    MarkerClosesBefore(t, line + gap);
  }

  // ----- reading a part of a text on its own -----

  lemma {:induction false} InfoEndShift(p: string, c: string, from: nat)
    requires from <= |c|
    ensures InfoEnd(p + c, |p| + from) == |p| + InfoEnd(c, from)
    decreases |c| - from
  {
    if from < |c| { InfoEndShift(p, c, from + 1); }
  }

  lemma FenceShift(p: string, c: string, i: int)
    requires i >= 0
    ensures FenceAt(p + c, |p| + i) <==> FenceAt(c, i)
  {
  }

  lemma {:induction false} FenceFromShift(p: string, c: string, from: nat)
    requires from <= |c|
    ensures FenceFrom(p + c, |p| + from) == |p| + FenceFrom(c, from)
    decreases |c| - from
  {
    FenceShift(p, c, from);
    if from < |c| && !FenceAt(c, from) { FenceFromShift(p, c, from + 1); }
  }

  lemma MarkerShift(p: string, c: string, from: nat)
    requires from > 0 || !FenceAt(c, 0)
    ensures MarkerAt(p + c, |p| + from) == match MarkerAt(c, from) case None => None case Some(m) => Some(|p| + m)
  {
    FenceShift(p, c, from);
    FenceShift(p, c, from + 1);
    if from < |c| { assert (p + c)[|p| + from] == c[from]; }
  }

  /** What opens away from the start of a part opens in the whole text. */
  lemma BodyShift(p: string, c: string, from: nat)
    requires from > 0 || !FenceAt(c, 0)
    ensures BodyAt(p + c, |p| + from) == match BodyAt(c, from) case None => None case Some(b) => Some(|p| + b)
  {
    MarkerShift(p, c, from);
    if MarkerAt(c, from).Some? { InfoEndShift(p, c, MarkerAt(c, from).value + 3); }
  }

  lemma StepShift(p: string, c: string, from: nat)
    requires from < |c| && (from > 0 || !FenceAt(c, 0))
    ensures StepTo(p + c, |p| + from) == Further(StepTo(c, from), |p|)
  {
    BodyShift(p, c, from);
    if BodyAt(c, from).Some? { FenceFromShift(p, c, BodyAt(c, from).value); }
  }

  function Further(n: Option<nat>, d: nat): Option<nat> {
    match n case None => None case Some(i) => Some(d + i)
  }

  lemma {:induction false} ReadShift(p: string, c: string, from: nat)
    requires from > 0 || !FenceAt(c, 0)
    ensures EndsOpen(p + c, |p| + from) == EndsOpen(c, from)
    decreases |c| - from
  {
    if from < |c| {
      StepShift(p, c, from);
      if StepTo(c, from).Some? { ReadShift(p, c, StepTo(c, from).value); }
    }
  }

  lemma InBlockShift(p: string, c: string, b: nat := 0)
    requires b <= |c|
    ensures InBlock(p + c, |p| + b) == InBlock(c, b)
  {
    FenceFromShift(p, c, b);
    if FenceFrom(c, b) < |c| { ReadShift(p, c, FenceFrom(c, b) + 3); }
  }

  lemma ReopenedBody(c: string)
    ensures BodyAt("```\n" + c, 0) == Some(4)
  {
    InfoEndAt("```\n" + c, 3, 3);
  }

  /** Inside a block, a part reads as it does behind an opening marker of its own. */
  lemma ReopenedReads(p: string, c: string)
    requires EndsOpen(p) && Apart(p, c)
    ensures EndsOpen(p + c) == EndsOpen("```\n" + c)
  {
    OpenReads(p, c);
    ReopenedInBlock(c);
  }

  lemma OpenReads(p: string, c: string)
    requires EndsOpen(p) && Apart(p, c)
    ensures EndsOpen(p + c) == InBlock(c, 0)
  {
    InsideAtEnd(p, c, 0);
    InBlockShift(p, c);
  }

  lemma ReopenedInBlock(c: string)
    ensures EndsOpen("```\n" + c) == InBlock(c, 0)
  {
    ReopenedBody(c);
    BlockAt("```\n" + c, 0, 4);
    InBlockShift("```\n", c);
  }

  /** Outside a block, a part reads as it does alone, save that a marker at its start opens nothing inside a line. */
  lemma PlainReads(p: string, c: string)
    requires !EndsOpen(p) && !Stranded(p) && (p == "" || p[|p| - 1] != '`')
    ensures EndsOpen(p + c) == if p == "" || p[|p| - 1] == '\n' || !FenceAt(c, 0) then EndsOpen(c) else EndsOpen(c, 1)
  {
    if p == "" {
      assert p + c == c;
    } else {
      OutsideAtEnd(p, c, 0);
      ReadsBehind(p, c);
    }
  }

  lemma ReadsBehind(p: string, c: string)
    requires p != "" && p[|p| - 1] != '`'
    ensures EndsOpen(p + c, |p| - 1) == if p[|p| - 1] == '\n' || !FenceAt(c, 0) then EndsOpen(c) else EndsOpen(c, 1)
  {
    if !FenceAt(c, 0) {
      PlainBehind(p, c);
    } else if p[|p| - 1] == '\n' {
      AfterNewline(p, c);
    } else {
      NoMarkerBefore(p, c);
      MarkerInLine(p, c);
    }
  }

  lemma PlainBehind(p: string, c: string)
    requires p != "" && p[|p| - 1] != '`' && !FenceAt(c, 0)
    ensures EndsOpen(p + c, |p| - 1) == EndsOpen(c)
  {
    NoMarkerBefore(p, c);
    ReadShift(p, c, 0);
  }

  lemma NoMarkerBefore(p: string, c: string)
    requires p != "" && p[|p| - 1] != '`' && (p[|p| - 1] != '\n' || !FenceAt(c, 0))
    ensures EndsOpen(p + c, |p| - 1) == EndsOpen(p + c, |p|)
  {
    FenceShift(p, c, 0);
    assert (p + c)[|p| - 1] == p[|p| - 1];
    assert BodyAt(p + c, |p| - 1).None?;
  }

  lemma MarkerInLine(p: string, c: string)
    requires p != "" && FenceAt(c, 0)
    ensures EndsOpen(p + c, |p|) == EndsOpen(c, 1)
  {
    assert (p + c)[|p|] == c[0];
    SkipStep(p + c, |p|);
    ReadShift(p, c, 1);
  }

  lemma BodyAfterNewline(p: string, c: string)
    requires p != "" && p[|p| - 1] == '\n' && FenceAt(c, 0)
    ensures BodyAt(p + c, |p| - 1) == match BodyAt(c, 0) case None => None case Some(b) => Some(|p| + b)
  {
    FenceShift(p, c, 0);
    assert (p + c)[|p| - 1] == '\n';
    InfoEndShift(p, c, 3);
  }

  lemma StepAfterNewline(p: string, c: string)
    requires p != "" && p[|p| - 1] == '\n' && FenceAt(c, 0) && BodyAt(c, 0).Some?
    ensures StepTo(p + c, |p| - 1) == Further(StepTo(c, 0), |p|)
  {
    BodyAfterNewline(p, c);
    FenceFromShift(p, c, BodyAt(c, 0).value);
  }

  lemma ReadsOn(s: string, i: nat, n: nat)
    requires i < |s| && StepTo(s, i) == Some(n)
    ensures EndsOpen(s, i) == EndsOpen(s, n)
  {
  }

  lemma OpensAfterNewline(p: string, c: string)
    requires p != "" && p[|p| - 1] == '\n' && FenceAt(c, 0) && BodyAt(c, 0).Some?
    ensures EndsOpen(p + c, |p| - 1) == EndsOpen(c)
  {
    StepAfterNewline(p, c);
    match StepTo(c, 0) {
      case None =>
      case Some(n) =>
        ReadsOn(c, 0, n);
        ReadsOn(p + c, |p| - 1, |p| + n);
        ReadShift(p, c, n);
    }
  }

  lemma SkipAfterNewline(p: string, c: string)
    requires p != "" && p[|p| - 1] == '\n' && FenceAt(c, 0) && BodyAt(c, 0).None?
    ensures EndsOpen(p + c, |p| - 1) == EndsOpen(c, 1) == EndsOpen(c)
  {
    BodyAfterNewline(p, c);
    MarkerInLine(p, c);
  }

  /** A marker behind a newline opens what it opens at the start of a text. */
  lemma AfterNewline(p: string, c: string)
    requires p != "" && p[|p| - 1] == '\n' && FenceAt(c, 0)
    ensures EndsOpen(p + c, |p| - 1) == EndsOpen(c)
  {
    if BodyAt(c, 0).None? { SkipAfterNewline(p, c); } else { OpensAfterNewline(p, c); }
  }

  // ----- reading on behind a stranded opener -----

  /** Where the block opens that a stranded opener opens, once its line is complete. */
  function OpensAt(c: string): (b: Option<nat>)
    ensures b.Some? ==> 0 < b.value <= |c|
  {
    var e := InfoEnd(c, 0);
    if e < |c| && c[e] == '\n' then Some(e + 1) else None
  }

  /** What follows a stranded opener is its info up to the newline, then its block; or it opens nothing. */
  predicate BehindStranded(c: string) {
    if OpensAt(c).Some? then InBlock(c, OpensAt(c).value)
    else if FenceAt(c, 0) then EndsOpen(c, 1) else EndsOpen(c)
  }

  lemma StrandedReads(s: string, c: string)
    requires Stranded(s) && Apart(s, c)
    ensures EndsOpen(s + c) == BehindStranded(c)
  {
    StrandedIff(s);
    var t, line := s[..LineStart(s)], s[LineStart(s)..];
    var p := if t == "" then 0 else |t| - 1;
    assert s == t + line;
    MarkerUnfinished(t, line, p);
    LineReads(t, line + c, p);
    Assoc(t, line, c);
    if OpensAt(c).Some? { OpensBehind(s, c, p); } else { SkipsBehind(s, c, p); }
  }

  /** Lines that are not open are done with where the last line begins. */
  lemma LineReads(t: string, rest: string, p: nat)
    requires !EndsOpen(t) && (t == "" || t[|t| - 1] == '\n') && p == if t == "" then 0 else |t| - 1
    ensures EndsOpen(t + rest) == EndsOpen(t + rest, p)
  {
    if t != "" {
      NotOpenAtNewline(t);
      OutsideAtEnd(t, rest, 0);
    }
  }

  lemma OpensBehind(s: string, c: string, p: nat)
    requires Unfinished(s, p) && p + 1 < |s| && Apart(s, c) && OpensAt(c).Some?
    ensures EndsOpen(s + c, p) == InBlock(c, OpensAt(c).value)
  {
    var b := OpensAt(c).value;
    UnfinishedBody(s, c, p);
    BlockAt(s + c, p, |s| + b);
    InBlockShift(s, c, b);
  }

  lemma BlockAt(s: string, from: nat, b: nat)
    requires from < |s| && BodyAt(s, from) == Some(b)
    ensures EndsOpen(s, from) == InBlock(s, b)
  {
    BlockReads(s, from);
  }

  lemma SkipsBehind(s: string, c: string, p: nat)
    requires Unfinished(s, p) && p + 1 < |s| && Apart(s, c) && OpensAt(c).None?
    requires forall k :: p < k < |s| ==> s[k] != '\n'
    ensures EndsOpen(s + c, p) == if FenceAt(c, 0) then EndsOpen(c, 1) else EndsOpen(c)
  {
    SkipsToEnd(s, c, p);
    if FenceAt(c, 0) { MarkerInLine(s, c); } else { ReadShift(s, c, 0); }
  }

  lemma SkipsToEnd(s: string, c: string, p: nat)
    requires Unfinished(s, p) && p + 1 < |s| && Apart(s, c) && OpensAt(c).None?
    requires forall k :: p < k < |s| ==> s[k] != '\n'
    ensures EndsOpen(s + c, p) == EndsOpen(s + c, |s|)
  {
    UnfinishedBody(s, c, p);
    SkipStep(s + c, p);
    SkipLine(s + c, p + 1, |s|);
  }

  lemma UnfinishedBody(s: string, c: string, p: nat)
    requires Unfinished(s, p) && p + 1 < |s| && Apart(s, c)
    ensures BodyAt(s + c, p) == match OpensAt(c) case None => None case Some(b) => Some(|s| + b)
  {
    BodyBefore(s, c, p);
    var from, e := MarkerAt(s, p).value + 3, InfoEnd(c, 0);
    assert forall k :: from <= k < |s| ==> (s + c)[k] == s[k];
    assert forall k :: 0 <= k < e ==> (s + c)[|s| + k] == c[k];
    InfoEndAt(s + c, from, |s| + e);
  }

  /** Within a line no block opens. */
  lemma {:induction false} SkipLine(x: string, a: nat, b: nat)
    requires 0 < a <= b <= |x| && forall k :: a <= k < b ==> x[k] != '\n'
    ensures EndsOpen(x, a) == EndsOpen(x, b)
    decreases b - a
  {
    if a < b {
      assert BodyAt(x, a).None?;
      SkipStep(x, a);
      SkipLine(x, a + 1, b);
    }
  }
}
