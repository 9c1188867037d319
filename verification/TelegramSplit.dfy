/** Splitting for Telegram: where to cut, and what to close and reopen. */
module TelegramSplit {
  import opened CodeBlocks
  import opened SplitText

  // ----- moving a cut -----

  predicate Backticks(s: string) { forall i :: 0 <= i < |s| ==> s[i] == '`' }

  /** Where the run of backticks that ends at a position starts. */
  function RunStart(text: string, cut: nat): (start: nat)
    requires cut <= |text|
    ensures start <= cut && (start > 0 ==> text[start - 1] != '`')
  {
    if cut > 0 && text[cut - 1] == '`' then RunStart(text, cut - 1) else cut
  }

  /** The cut moved before the run of backticks it touches, unless the run starts the text. */
  function OffBackticks(text: string, cut: nat): nat
    requires cut <= |text|
  {
    if 0 < cut < |text| && (text[cut] == '`' || text[cut - 1] == '`') && RunStart(text, cut) > 0 then
      RunStart(text, cut)
    else cut
  }

  /** Never leaves a run of backticks cut in two, unless the chunk is nothing but backticks. */
  method AvoidBacktickSplit(text: string, cut: nat) returns (r: nat)
    requires cut <= |text|
    ensures r == OffBackticks(text, cut)
    ensures r <= cut && (cut > 0 ==> r > 0)
    ensures 0 < r < |text| && text[r - 1] == '`' ==> r == cut && Backticks(text[..r])
    ensures 0 < cut < |text| && text[cut] != '`' && text[cut - 1] != '`' ==> r == cut
  {
    if cut == 0 || cut >= |text| { return cut; }
    if text[cut] != '`' && text[cut - 1] != '`' { return cut; }
    var start := cut;
    while start > 0 && text[start - 1] == '`'
      invariant start <= cut && Backticks(text[start..cut]) && RunStart(text, start) == RunStart(text, cut)
    {
      assert text[start - 1..cut] == [text[start - 1]] + text[start..cut];
      start := start - 1;
    }
    assert start == 0 ==> text[..cut] == text[start..cut];
    r := if start > 0 then start else cut;
  }

  /**
   * The cut moved before a marker in the last line of the head, unless the lines before it, read without their
   * last newline, end inside a block.
   */
  function BeforeOpening(text: string, cut: nat): (r: nat)
    requires cut <= |text|
    ensures r <= cut && (cut > 0 ==> r > 0)
  {
    var newline := LastIndexOf(text[..cut], '\n');
    if newline > 0 && LooksLikeMarker(text[newline + 1..cut]) && !EndsOpen(text[..newline]) then newline else cut
  }

  /** Whether the marker in the last line of the head opens a block, or closes one, once its line is complete. */
  predicate MarkerAtCut(text: string, cut: nat)
    requires cut <= |text|
  {
    EndsInMarker(text[..cut])
  }

  /** The newline before the marker is itself the one that completes an opener: the marker is its closing one. */
  predicate CompletesOpener(text: string, newline: nat)
    requires newline < |text|
  {
    !EndsOpen(text[..newline]) && EndsOpen(text[..newline + 1])
  }

  /** Never more than the cut; a marker that opens a block is left behind only where there is no line to cut before. */
  method AvoidSplitAfterOpeningFence(text: string, cut: nat) returns (r: nat)
    requires cut <= |text|
    ensures r == BeforeOpening(text, cut)
    ensures var newline := LastIndexOf(text[..cut], '\n');
            Stranded(text[..r]) <==> MarkerAtCut(text, cut) && (newline > 0 ==> CompletesOpener(text, newline))
  {
    var head := text[..cut];
    var lastNewline := LastIndexOf(head, '\n');
    var lastLine := head[lastNewline + 1..];
    assert lastLine == text[lastNewline + 1..cut];
    StrandedAfterIff(text, cut);
    if !LooksLikeMarker(lastLine) { return cut; }
    var before := head[..if lastNewline > 0 then lastNewline else 0];
    assert lastNewline > 0 ==> before == text[..lastNewline];
    var open := EndsInsideFence(before);
    r := if !open && lastNewline > 0 then lastNewline else cut;
  }

  lemma HeadLines(text: string, cut: nat)
    requires cut <= |text|
    ensures var head, newline := text[..cut], LastIndexOf(text[..cut], '\n');
            LineStart(head) == newline + 1 && head[newline + 1..] == text[newline + 1..cut]
            && head[..newline + 1] == text[..newline + 1]
  {
  }

  lemma PrefixOverNewline(text: string, newline: nat)
    requires newline < |text| && text[newline] == '\n'
    ensures text[..newline + 1] == text[..newline] + "\n"
    ensures EndsOpen(text[..newline]) ==> EndsOpen(text[..newline + 1])
    ensures Stranded(text[..newline]) <==> CompletesOpener(text, newline)
  {
    assert text[..newline + 1] == text[..newline] + "\n";
    if EndsOpen(text[..newline]) { OpenOverNewline(text[..newline], 0); }
  }

  /** A marker that would open a block is always cut before, where there is a line to cut before. */
  lemma OpenersAreMoved(text: string, cut: nat)
    requires cut <= |text| && MarkerAtCut(text, cut) && EndsOpen(text[..cut] + "\n")
    ensures var newline := LastIndexOf(text[..cut], '\n');
            BeforeOpening(text, cut) == if newline > 0 then newline else cut
  {
    var newline := LastIndexOf(text[..cut], '\n');
    HeadLines(text, cut);
    MarkerOpensIff(text[..cut]);
    if newline > 0 { PrefixOverNewline(text, newline); }
  }

  /** A marker that closes a block is cut before all the same exactly when its block opens at the newline before it. */
  lemma ClosersAreMovedIff(text: string, cut: nat)
    requires cut <= |text| && MarkerAtCut(text, cut) && LastIndexOf(text[..cut], '\n') > 0
    ensures var newline := LastIndexOf(text[..cut], '\n');
            BeforeOpening(text, cut) == newline && !EndsOpen(text[..cut] + "\n") <==> CompletesOpener(text, newline)
  {
    HeadLines(text, cut);
    MarkerOpensIff(text[..cut]);
  }

  /** When the head that is left strands an opener: there is no line to cut before, or the cut moved before a closer. */
  lemma StrandedAfterIff(text: string, cut: nat)
    requires cut <= |text|
    ensures var newline := LastIndexOf(text[..cut], '\n');
            Stranded(text[..BeforeOpening(text, cut)])
            <==> MarkerAtCut(text, cut) && (newline > 0 ==> CompletesOpener(text, newline))
  {
    var newline := LastIndexOf(text[..cut], '\n');
    HeadLines(text, cut);
    StrandedIff(text[..cut]);
    if newline > 0 {
      PrefixOverNewline(text, newline);
    } else {
      assert newline == 0 ==> text[..1] == "\n";
      NoBlockAtEnd(text[..newline + 1], 0);
    }
  }

  /** The marker that closes an empty block is cut off from it. */
  lemma CloserCutOff(text: string)
    requires text == "a\n```\n```xyz"
    ensures BeforeOpening(text, 10) == 5 && !EndsOpen(text[..10] + "\n") && Stranded(text[..5])
  {
    LastIndexAt(text[..10], '\n', 5);
    assert text[..5] == "a\n```" && text[..6] == "a\n```\n" && text[6..10] == "```x";
    OneMarkerLine(text[..5]);
    PrefixOverNewline(text, 5);
    ClosersAreMovedIff(text, 10);
  }

  lemma OneMarkerLine(s: string)
    requires s == "a\n```"
    ensures Stranded(s)
  {
    LastIndexAt(s, '\n', 1);
    assert s[2..] == "```" && s[..2] == "a\n";
    NoFenceNotOpen(s[..2], 0);
    StrandedIff(s);
  }

  // ----- rebalancing -----

  /** Whether chunk i begins inside a block, going by the rebalanced chunks before it. */
  predicate OpenBefore(chunks: seq<string>, i: nat)
    requires i <= |chunks|
  {
    i > 0 && EndsOpen(Wrapped(OpenBefore(chunks, i - 1), chunks[i - 1], false))
  }

  /** Chunk i as it is sent: reopened if it begins inside a block, closed if it ends inside one. */
  function Message(chunks: seq<string>, i: nat): string
    requires i < |chunks|
  {
    Wrapped(OpenBefore(chunks, i), chunks[i], OpenBefore(chunks, i + 1))
  }

  /** Main result on rebalancing: no message ends inside a block. */
  lemma MessageClosed(chunks: seq<string>, i: nat)
    requires i < |chunks|
    ensures !EndsOpen(Message(chunks, i))
  {
    var chunk := Wrapped(OpenBefore(chunks, i), chunks[i], false);
    WrapSteps(OpenBefore(chunks, i), chunks[i]);
    if OpenBefore(chunks, i + 1) { ClosingCloses(chunk, 0); }
  }

  lemma MessageSteps(chunks: seq<string>, i: nat)
    requires i < |chunks|
    ensures var chunk := if OpenBefore(chunks, i) then "```\n" + chunks[i] else chunks[i];
            OpenBefore(chunks, i + 1) == EndsOpen(chunk)
            && Message(chunks, i) == if EndsOpen(chunk) then chunk + "\n```" else chunk
  {
    WrapSteps(OpenBefore(chunks, i), chunks[i]);
  }

  /** The first messages, one for each chunk. */
  predicate Sent(balanced: seq<string>, chunks: seq<string>) {
    |balanced| <= |chunks| && forall i :: 0 <= i < |balanced| ==> balanced[i] == Message(chunks, i)
  }

  lemma SentOneMore(balanced: seq<string>, chunks: seq<string>)
    requires Sent(balanced, chunks) && |balanced| < |chunks|
    ensures Sent(balanced + [Message(chunks, |balanced|)], chunks)
  {
  }

  /** The next chunk as it is sent, and whether the one after it begins inside a block. */
  method Rebalance(chunk: string, insideFence: bool) returns (message: string, inside: bool)
    ensures inside == EndsOpen(if insideFence then "```\n" + chunk else chunk)
    ensures message == (if insideFence then "```\n" + chunk else chunk) + (if inside then "\n```" else "")
  {
    message := if insideFence then "```\n" + chunk else chunk;
    inside := EndsInsideFence(message);
    if inside { message := message + "\n```"; }
  }

  method RebalanceFences(chunks: seq<string>) returns (balanced: seq<string>)
    ensures |balanced| == |chunks| && Sent(balanced, chunks)
  {
    balanced := [];
    var insideFence := false;
    for index := 0 to |chunks|
      invariant |balanced| == index && insideFence == OpenBefore(chunks, index) && Sent(balanced, chunks)
    {
      MessageSteps(chunks, index);
      SentOneMore(balanced, chunks);
      var chunk;
      chunk, insideFence := Rebalance(chunks[index], insideFence);
      balanced := balanced + [chunk];
    }
  }

  // ----- what a chunk is taken to begin in, and what the text says -----

  /** A marker at the start of the chunk is one in the text as well, or makes no difference to where the chunk ends. */
  predicate ReadsAlike(before: string, chunk: string) {
    || before == "" || EndsOpen(before) || before[|before| - 1] == '\n'
    || !FenceAt(chunk, 0) || EndsOpen(chunk) == EndsOpen(chunk, 1)
  }

  /**
   * Main result on one cut: behind a text that strands no opener and ends in no backtick, a chunk as it is wrapped
   * reads as it does in the text exactly under that condition.
   */
  lemma ChunkReadsIff(before: string, chunk: string)
    requires !Stranded(before) && (before == "" || before[|before| - 1] != '`')
    ensures EndsOpen(Wrapped(EndsOpen(before), chunk, false)) == EndsOpen(before + chunk) <==> ReadsAlike(before, chunk)
  {
    WrapSteps(EndsOpen(before), chunk);
    if EndsOpen(before) { ReopenedReads(before, chunk); } else { PlainReads(before, chunk); }
  }

  /** Behind a stranded opener and a newline, the text reads the chunk from inside a block, and it is sent unopened. */
  lemma StrandedChunkIff(before: string, gap: string, chunk: string)
    requires Stranded(before) && AllGap(gap) && '\n' in gap
    ensures EndsOpen(before + gap + chunk) == InBlock(chunk, 0)
    ensures EndsOpen(Wrapped(EndsOpen(before), chunk, false)) == EndsOpen(before + gap + chunk)
            <==> EndsOpen(chunk) == InBlock(chunk, 0)
  {
    assert before + gap + chunk == before + (gap + chunk);
    StrandedReads(before, gap + chunk);
    GapThenBlock(gap, chunk);
    WrapSteps(false, chunk);
  }

  lemma GapThenBlock(gap: string, chunk: string)
    requires AllGap(gap) && '\n' in gap
    ensures OpensAt(gap + chunk).Some?
    ensures InBlock(gap + chunk, OpensAt(gap + chunk).value) == InBlock(chunk, 0)
  {
    GapOpens(gap, chunk);
    GapInBlock(gap, chunk, OpensAt(gap + chunk).value);
  }

  lemma GapOpens(gap: string, chunk: string)
    requires AllGap(gap) && '\n' in gap
    ensures OpensAt(gap + chunk).Some? && OpensAt(gap + chunk).value <= |gap|
  {
    var x, e := gap + chunk, InfoEnd(gap + chunk, 0);
    var i :| 0 <= i < |gap| && gap[i] == '\n';
    assert x[i] == '\n' && e <= i;
    assert x[e] == gap[e];
  }

  lemma GapInBlock(gap: string, chunk: string, from: nat)
    requires AllGap(gap) && from <= |gap|
    ensures InBlock(gap + chunk, from) == InBlock(chunk, 0)
  {
    forall k | from <= k < |gap| ensures !FenceAt(gap + chunk, k) { assert (gap + chunk)[k] == gap[k]; }
    FencesBehindGap(gap, chunk, from);
    SameFenceSameReading(gap + chunk, from, |gap|);
    InBlockShift(gap, chunk);
  }

  lemma SameFenceSameReading(x: string, a: nat, b: nat)
    requires a <= |x| && b <= |x| && FenceFrom(x, a) == FenceFrom(x, b)
    ensures InBlock(x, a) == InBlock(x, b)
  {
  }

  lemma FencesBehindGap(gap: string, chunk: string, from: nat)
    requires from <= |gap| && forall k :: from <= k < |gap| ==> !FenceAt(gap + chunk, k)
    ensures FenceFrom(gap + chunk, from) == FenceFrom(gap + chunk, |gap|)
  {
    FenceFromAt(gap + chunk, from, FenceFrom(gap + chunk, |gap|));
  }

  /** A cut that strands no opener, cuts no run of backticks and lets the chunk read as in the text. */
  predicate CleanCut(before: string, chunk: string) {
    && !Stranded(before + chunk)
    && (before == "" || before[|before| - 1] != '`')
    && ReadsAlike(before, chunk)
  }

  /** From one cut to the next: the state by the chunks, and where the text ends. */
  lemma NextState(chunks: seq<string>, gaps: seq<string>, i: nat)
    requires |gaps| == |chunks| && i < |chunks| && AllGap(gaps[i])
    requires !Stranded(Interleave(chunks[..i], gaps[..i]) + chunks[i])
    ensures OpenBefore(chunks, i + 1) == EndsOpen(Wrapped(OpenBefore(chunks, i), chunks[i], false))
    ensures var after := Interleave(chunks[..i + 1], gaps[..i + 1]);
            EndsOpen(after) == EndsOpen(Interleave(chunks[..i], gaps[..i]) + chunks[i]) && !Stranded(after)
  {
    GapKeeps(Interleave(chunks[..i], gaps[..i]) + chunks[i], gaps[i]);
    assert chunks[..i + 1][..i] == chunks[..i] && gaps[..i + 1][..i] == gaps[..i];
  }

  /** With clean cuts a chunk is reopened exactly when the text up to it ends inside a block. */
  lemma {:induction false} OpenBeforeReadsText(chunks: seq<string>, gaps: seq<string>, i: nat)
    requires |gaps| == |chunks| && i <= |chunks| && forall k :: 0 <= k < |gaps| ==> AllGap(gaps[k])
    requires forall k :: 0 <= k < i ==> CleanCut(Interleave(chunks[..k], gaps[..k]), chunks[k])
    ensures OpenBefore(chunks, i) == EndsOpen(Interleave(chunks[..i], gaps[..i]))
    ensures !Stranded(Interleave(chunks[..i], gaps[..i]))
  {
    if i == 0 {
      NothingRead();
    } else {
      OpenBeforeReadsText(chunks, gaps, i - 1);
      ChunkReadsIff(Interleave(chunks[..i - 1], gaps[..i - 1]), chunks[i - 1]);
      NextState(chunks, gaps, i - 1);
    }
  }

  lemma NothingRead()
    ensures !EndsOpen("") && !Stranded("")
  {
    NoBlockAtEnd("", 0);
    GapAfterEnd("", "\n", 0);
  }

  /** The first cut where only the reading parts: from there on the state is wrong exactly then. */
  lemma FirstPartingIff(chunks: seq<string>, gaps: seq<string>, i: nat)
    requires |gaps| == |chunks| && i < |chunks| && forall k :: 0 <= k < |gaps| ==> AllGap(gaps[k])
    requires forall k :: 0 <= k < i ==> CleanCut(Interleave(chunks[..k], gaps[..k]), chunks[k])
    requires var before := Interleave(chunks[..i], gaps[..i]);
             !Stranded(before + chunks[i]) && (before == "" || before[|before| - 1] != '`')
    ensures OpenBefore(chunks, i + 1) == EndsOpen(Interleave(chunks[..i + 1], gaps[..i + 1]))
            <==> ReadsAlike(Interleave(chunks[..i], gaps[..i]), chunks[i])
  {
    OpenBeforeReadsText(chunks, gaps, i);
    ChunkReadsIff(Interleave(chunks[..i], gaps[..i]), chunks[i]);
    NextState(chunks, gaps, i);
  }

  // ----- the splitter -----

  const FENCE_RESERVE := 8

  function EffectiveLimit(text: string, limit: nat): nat {
    if !HasFence(text) then limit else if limit - FENCE_RESERVE > 1 then limit - FENCE_RESERVE else 1
  }

  /** Cutting makes progress exactly when the chunk limit is positive or white space can be skipped. */
  lemma ProgressIff(remaining: string, effectiveLimit: nat)
    requires |remaining| > effectiveLimit
    ensures SkipGap(remaining, ChooseCut(remaining, effectiveLimit)) > 0 <==> effectiveLimit > 0 || IsGap(remaining[0])
  {
  }

  /** Where what remains is cut; a text with fences moves the cut off backticks, then off an opening marker. */
  function CutPoint(text: string, limit: nat, hasFence: bool): (cut: nat)
    requires limit <= |text|
    ensures cut <= limit && (limit > 0 && cut == 0 ==> text[0] == '\n')
  {
    var cut := ChooseCut(text, limit);
    if hasFence then BeforeOpening(text, OffBackticks(text, cut)) else cut
  }

  function Chunks(text: string, limit: nat, hasFence: bool): seq<string>
    requires limit > 0
  {
    if |text| <= limit then (if text == "" then [] else [text]) else
      var cut := CutPoint(text, limit, hasFence);
      [text[..cut]] + Chunks(text[SkipGap(text, cut)..], limit, hasFence)
  }

  /** The first chunk of a text that does not fit: where it is cut at first, where in the end, and what follows. */
  lemma FirstCut(text: string, limit: nat, hasFence: bool) returns (chosen: nat, cut: nat, next: nat)
    requires 0 < limit < |text|
    ensures CutsAt(text, limit, chosen) && cut <= chosen && cut <= next <= |text|
    ensures cut == if hasFence then BeforeOpening(text, OffBackticks(text, chosen)) else chosen
    ensures AllGap(text[cut..next]) && (next < |text| ==> !IsGap(text[next]))
    ensures Chunks(text, limit, hasFence) == [text[..cut]] + Chunks(text[next..], limit, hasFence)
  {
    chosen := ChooseCut(text, limit);
    cut := CutPoint(text, limit, hasFence);
    next := SkipGap(text, cut);
    ChooseCutCuts(text, limit);
  }

  /** A marker brought to the start of a chunk from behind a space is sent as an open block, which the text has not. */
  lemma FalseOpener(first: string, last: string)
    requires !HasFence(first) && EndsOpen(last) && FenceAt(last, 0) && forall k :: 0 < k ==> !FenceAt(last, k)
    ensures OpenBefore([first, last], 2) && !EndsOpen(first + " " + last)
  {
    forall k ensures !FenceAt(first + " ", k) {
      if 0 <= k && k + 3 <= |first + " "| {
        assert (first + " ")[k + 2] == '`' ==> FenceAt(first + " ", k) == FenceAt(first, k);
      }
    }
    InlineMarkerReads(first + " ", last);
    PlainThenOpen(first, last);
  }

  /** Nine characters without white space or backticks, and twelve with an opening marker at their start alone. */
  predicate CutBehindWord(first: string, last: string) {
    && |first| == 9 && (forall k :: 0 <= k < 9 ==> !IsGap(first[k]) && first[k] != '`')
    && |last| == 12 && FenceAt(last, 0) && EndsOpen(last) && forall k :: 0 < k < 12 ==> !FenceAt(last, k)
  }

  /** Such a cut is made. */
  lemma FalseOpenerReached(first: string, last: string)
    requires CutBehindWord(first, last)
    ensures var text := first + " " + last;
            |text| > 20 && EffectiveLimit(text, 20) == 12 && Chunks(text, 12, true) == [first, last]
            && OpenBefore([first, last], 2) && !EndsOpen(text)
  {
    NoMarkerInWord(first);
    FalseOpener(first, last);
    InlineMarkerCut(first, last);
    FenceBehind(first + " ", last);
  }

  /** There are such texts. */
  lemma CutBehindWordExample(first: string, last: string)
    requires first == "aaaaaaaaa" && last == "```ts\nxxxxxx"
    ensures CutBehindWord(first, last)
  {
    InlineMarkerOpens(last);
  }

  lemma FenceBehind(before: string, last: string)
    requires FenceAt(last, 0)
    ensures HasFence(before + last)
  {
    assert FenceAt(before + last, |before|);
  }

  lemma NoMarkerInWord(word: string)
    requires forall k :: 0 <= k < |word| ==> word[k] != '`'
    ensures !HasFence(word)
  {
  }

  lemma PlainThenOpen(first: string, last: string)
    requires !HasFence(first) && EndsOpen(last)
    ensures OpenBefore([first, last], 2)
  {
    NoFenceNotOpen(first, 0);
    WrapSteps(false, first);
    WrapSteps(false, last);
    assert !OpenBefore([first, last], 1);
  }

  lemma InlineMarkerCut(first: string, last: string)
    requires CutBehindWord(first, last)
    ensures Chunks(first + " " + last, 12, true) == [first, last]
  {
    var text := first + " " + last;
    assert text[..9] == first && text[10..] == last;
    assert text[9] == ' ' && text[8] == first[8] && text[10] == text[11] == '`';
    SpaceAtNine(text, first);
    assert SkipGap(text, 10) == 10 && SkipGap(text, 9) == 10;
    assert Chunks(last, 12, true) == [last];
  }

  lemma SpaceAtNine(text: string, first: string)
    requires |text| >= 12 && |first| == 9 && first <= text && text[9] == ' ' && text[10] == text[11] == '`'
    requires forall k :: 0 <= k < 9 ==> !IsGap(first[k]) && first[k] != '`'
    ensures CutPoint(text, 12, true) == 9
  {
    LastIndexAt(text[..12], ' ', 9);
    assert LastIndexOf(text[..12], '\n') == -1;
    assert ChooseCut(text, 12) == 9 && OffBackticks(text, 9) == 9;
    assert LastIndexOf(text[..9], '\n') == -1;
  }

  lemma InlineMarkerOpens(last: string)
    requires last == "```ts\nxxxxxx"
    ensures EndsOpen(last) && FenceAt(last, 0) && forall k :: 0 < k ==> !FenceAt(last, k)
  {
    assert forall k :: 3 <= k < 12 ==> last[k] != '`';
    InfoEndAt(last, 3, 5);
    FenceFromAt(last, 6, 12);
  }

  /** The only marker of a text opens nothing behind a space. */
  lemma InlineMarkerReads(before: string, last: string)
    requires before != "" && before[|before| - 1] == ' ' && !HasFence(before)
    requires FenceAt(last, 0) && forall k :: 0 < k ==> !FenceAt(last, k)
    ensures !EndsOpen(before + last)
  {
    NoFenceNotOpen(before, 0);
    PlainNotStranded(before);
    PlainReads(before, last);
    NoBlockAfter(last, 1);
  }

  lemma PlainNotStranded(s: string)
    requires !HasFence(s)
    ensures !Stranded(s)
  {
    StrandedIff(s);
    if EndsInMarker(s) { assert FenceAt(s, LineStart(s)); }
  }

  /** Cutting loses nothing but white space at the cuts, and every chunk fits. */
  lemma {:induction false} ChunksReassemble(text: string, limit: nat, hasFence: bool)
    requires limit > 0
    ensures Reassembles(text, Chunks(text, limit, hasFence))
    ensures forall i :: 0 <= i < |Chunks(text, limit, hasFence)| ==> |Chunks(text, limit, hasFence)[i]| <= limit
  {
    if |text| <= limit {
      WholeReassembles(text);
    } else {
      var cut := CutPoint(text, limit, hasFence);
      var next := SkipGap(text, cut);
      ChunksReassemble(text[next..], limit, hasFence);
      CutInFront(text, cut, next, Chunks(text[next..], limit, hasFence));
    }
  }

  method FindCut(remaining: string, limit: nat, hasFence: bool) returns (cut: nat)
    requires limit <= |remaining|
    ensures cut == CutPoint(remaining, limit, hasFence)
  {
    cut := ChooseCut(remaining, limit);
    if hasFence {
      cut := AvoidBacktickSplit(remaining, cut);
      cut := AvoidSplitAfterOpeningFence(remaining, cut);
    }
  }

  method CutText(text: string, limit: nat, hasFence: bool) returns (chunks: seq<string>)
    requires limit > 0
    ensures chunks == Chunks(text, limit, hasFence)
  {
    chunks := [];
    var remaining := text;
    while |remaining| > limit
      invariant chunks + Chunks(remaining, limit, hasFence) == Chunks(text, limit, hasFence)
      decreases |remaining|
    {
      var cut := FindCut(remaining, limit, hasFence);
      var nextStart := SkipGap(remaining, cut);
      Regroup(chunks, remaining[..cut], Chunks(remaining[nextStart..], limit, hasFence));
      ProgressIff(remaining, limit);
      chunks := chunks + [remaining[..cut]];
      remaining := remaining[nextStart..];
    }
    if |remaining| > 0 {
      chunks := chunks + [remaining];
    }
  }

  /** Size, content and closedness, for every text and every limit under which cutting can proceed. */
  method SplitForTelegram(sanitized: string, limit: nat) returns (messages: seq<string>, ghost chunks: seq<string>)
    requires EffectiveLimit(sanitized, limit) > 0
    ensures |messages| == |chunks| && Reassembles(sanitized, chunks)
    ensures |sanitized| <= limit ==> messages == [sanitized]
    ensures |sanitized| > limit ==> chunks == Chunks(sanitized, EffectiveLimit(sanitized, limit), HasFence(sanitized))
    ensures |sanitized| > limit ==> forall i :: 0 <= i < |messages| ==> messages[i] == Message(chunks, i)
    ensures limit >= 9 || !HasFence(sanitized) ==> forall i :: 0 <= i < |messages| ==> |messages[i]| <= limit
    ensures (forall i :: 0 <= i < |messages| ==> !EndsOpen(messages[i]))
        <==> |sanitized| > limit || !EndsOpen(sanitized)
  {
    if |sanitized| <= limit {
      messages, chunks := [sanitized], [sanitized];
      WholeReassembles(sanitized);
      return;
    }
    var hasFence := HasFence(sanitized);
    var raw := CutText(sanitized, EffectiveLimit(sanitized, limit), hasFence);
    ChunksReassemble(sanitized, EffectiveLimit(sanitized, limit), hasFence);
    chunks := raw;
    forall i | 0 <= i < |raw| ensures !EndsOpen(Message(raw, i)) { MessageClosed(raw, i); }
    if hasFence {
      messages := RebalanceFences(raw);
    } else {
      PlainChunks(sanitized, raw);
      messages := raw;
    }
  }

  /** Chunks of a text without markers are sent as they are. */
  lemma PlainChunks(text: string, chunks: seq<string>)
    requires !HasFence(text) && Reassembles(text, chunks)
    ensures forall i :: 0 <= i < |chunks| ==> Message(chunks, i) == chunks[i]
  {
    var gaps :| GapsFor(text, chunks, gaps);
    forall i | 0 <= i <= |chunks| ensures !OpenBefore(chunks, i) { PlainNeverOpen(text, chunks, gaps, i); }
  }

  lemma {:induction false} PlainNeverOpen(text: string, chunks: seq<string>, gaps: seq<string>, i: nat)
    requires !HasFence(text) && |gaps| == |chunks| && Interleave(chunks, gaps) == text && i <= |chunks|
    ensures !OpenBefore(chunks, i)
  {
    if i > 0 {
      PlainNeverOpen(text, chunks, gaps, i - 1);
      var offset := ChunkInside(chunks, gaps, i - 1);
      PartHasNoFence(text, offset, chunks[i - 1]);
      NoFenceNotOpen(chunks[i - 1], 0);
      assert Wrapped(false, chunks[i - 1], false) == chunks[i - 1];
    }
  }

  lemma PartHasNoFence(text: string, offset: nat, part: string)
    requires !HasFence(text) && offset + |part| <= |text| && text[offset..offset + |part|] == part
    ensures !HasFence(part)
  {
    if HasFence(part) {
      var k :| 0 <= k < |part| && FenceAt(part, k);
      assert text[offset..offset + |part|][k] == text[offset + k];
      assert FenceAt(text, offset + k);
    }
  }

  lemma {:induction false} ChunkInside(chunks: seq<string>, gaps: seq<string>, i: nat) returns (offset: nat)
    requires |gaps| == |chunks| && i < |chunks|
    ensures var text := Interleave(chunks, gaps);
            offset + |chunks[i]| <= |text| && text[offset..offset + |chunks[i]|] == chunks[i]
  {
    var n := |chunks| - 1;
    var inner := Interleave(chunks[..n], gaps[..n]);
    if i == n {
      offset := |inner|;
    } else {
      offset := ChunkInside(chunks[..n], gaps[..n], i);
      assert (inner + chunks[n] + gaps[n])[offset..offset + |chunks[i]|] == inner[offset..offset + |chunks[i]|];
    }
  }
}
