/** Splitting for Discord: fixed reserve, fence parity restored chunk by chunk. */
module DiscordSplit {
  import opened SplitText

  /** How many fence markers a left-to-right scan finds. */
  function CountFences(s: string, from: nat := 0): nat
    decreases |s| - from
  {
    if from >= |s| then 0
    else if FenceAt(s, from) then 1 + CountFences(s, from + 3)
    else CountFences(s, from + 1)
  }

  predicate Odd(s: string) { CountFences(s) % 2 == 1 }

  /** A closing marker on its own line adds exactly one. */
  lemma {:induction false} ClosingAddsOne(s: string, from: nat)
    requires from <= |s|
    ensures CountFences(Closed(s), from) == CountFences(s, from) + 1
    decreases |s| - from
  {
    var closed := Closed(s);
    FencesOfClosed(s, from);
    if from == |s| {
      FencesOfClosed(s, from + 1);
      assert CountFences(closed, from + 1) == 1;
    } else if FenceAt(s, from) {
      ClosingAddsOne(s, from + 3);
    } else {
      ClosingAddsOne(s, from + 1);
    }
  }

  const RESERVE := 10
  const MIN_LIMIT := 64

  /** Ten characters less, for the markers, but 64 at least. */
  function EffectiveLimit(limit: int): (r: nat)
    ensures r >= 64 && r >= limit - 10 && (r == 64 || r == limit - 10)
  {
    if limit - RESERVE > MIN_LIMIT then limit - RESERVE else MIN_LIMIT
  }

  /** Whether chunk i begins inside a code block, going by the parity of the rebalanced chunks before it. */
  function OpenBefore(chunks: seq<string>, i: nat): bool
    requires i <= |chunks|
  {
    i > 0 && Odd(Wrapped(OpenBefore(chunks, i - 1), chunks[i - 1], false))
  }

  /** An opening marker in front adds exactly one. */
  lemma OpeningAddsOne(s: string)
    ensures CountFences(FENCE + "\n" + s, 0) == CountFences(s, 0) + 1
  {
    var reopened := FENCE + "\n" + s;
    assert FenceAt(reopened, 0) && !FenceAt(reopened, 3);
    assert CountFences(reopened, 0) == 1 + CountFences(reopened, 3) == 1 + CountFences(reopened, 4);
    CountShifted(reopened, s, 4, 0);
  }

  lemma {:induction false} CountShifted(t: string, s: string, offset: nat, from: nat)
    requires |t| == |s| + offset && t[offset..] == s
    ensures CountFences(t, from + offset) == CountFences(s, from)
    decreases |s| - from
  {
    if from < |s| {
      assert forall k :: 0 <= k < |s| ==> t[k + offset] == s[k];
      CountShifted(t, s, offset, from + 1);
      CountShifted(t, s, offset, from + 3);
    }
  }

  function TotalFences(chunks: seq<string>): nat {
    if chunks == [] then 0 else TotalFences(chunks[..|chunks| - 1]) + CountFences(chunks[|chunks| - 1])
  }

  /** A chunk is reopened exactly when the chunks before it hold an odd number of markers. */
  lemma {:induction false} OpenIsParity(chunks: seq<string>, i: nat)
    requires i <= |chunks|
    ensures OpenBefore(chunks, i) <==> TotalFences(chunks[..i]) % 2 == 1
  {
    if i > 0 {
      OpenIsParity(chunks, i - 1);
      assert chunks[..i][..i - 1] == chunks[..i - 1];
      OpeningAddsOne(chunks[i - 1]);
      assert Wrapped(true, chunks[i - 1], false) == FENCE + "\n" + chunks[i - 1];
      assert Wrapped(false, chunks[i - 1], false) == chunks[i - 1];
    }
  }

  // ----- the markers of the chunks and those of the text -----

  /** How many backticks end a text, from a position on. */
  function Trail(s: string, from: nat := 0): (n: nat)
    requires from <= |s|
    ensures n <= |s| - from && forall k :: |s| - n <= k < |s| ==> s[k] == '`'
    ensures n < |s| - from ==> s[|s| - n - 1] != '`'
    decreases |s| - from
  {
    if from == |s| then 0
    else
      var n := Trail(s, from + 1);
      if n == |s| - from - 1 && s[from] == '`' then n + 1 else n
  }

  /** How many backticks begin it. */
  function Lead(s: string): (n: nat)
    ensures n <= |s| && (forall k :: 0 <= k < n ==> s[k] == '`') && (n < |s| ==> s[n] != '`')
  {
    if s == "" || s[0] != '`' then 0 else 1 + Lead(s[1..])
  }

  /** The cut between two texts takes a marker apart: what each side keeps of the run is too little, together enough. */
  predicate SplitsMarker(a: string, b: string) { Trail(a) % 3 + Lead(b) % 3 >= 3 }

  lemma TrailUnique(s: string, from: nat, n: nat)
    requires from <= |s| && n <= |s| - from && (n < |s| - from ==> s[|s| - n - 1] != '`')
    requires forall k :: |s| - n <= k < |s| ==> s[k] == '`'
    ensures Trail(s, from) == n
  {
    var m := Trail(s, from);
    assert m < |s| - from ==> s[|s| - m - 1] != '`';
  }

  /** Within the leading run the scan finds a marker for every three backticks. */
  lemma {:induction false} RunCount(s: string, k: nat)
    requires k <= Lead(s)
    ensures CountFences(s, k) == (Lead(s) - k) / 3 + CountFences(s, Lead(s) - (Lead(s) - k) % 3)
    decreases Lead(s) - k
  {
    if k + 3 <= Lead(s) {
      assert FenceAt(s, k);
      RunCount(s, k + 3);
    }
  }

  /** What is left of a run after its last whole marker holds none. */
  lemma RestCount(s: string, k: nat)
    requires k <= Lead(s) && Lead(s) - k < 3
    ensures CountFences(s, k) == CountFences(s, Lead(s))
    decreases Lead(s) - k
  {
    if k < Lead(s) {
      assert !FenceAt(s, k);
      RestCount(s, k + 1);
    }
  }

  lemma LeadCount(s: string, k: nat)
    requires k <= Lead(s)
    ensures CountFences(s, k) == (Lead(s) - k) / 3 + CountFences(s, Lead(s))
  {
    RunCount(s, k);
    RestCount(s, Lead(s) - (Lead(s) - k) % 3);
  }

  /** One step of the scan over a away from its last run leaves that run as it is, up to whole markers. */
  lemma TrailStep(a: string, from: nat)
    requires from < |a|
    ensures FenceAt(a, from) ==> Trail(a, from) % 3 == Trail(a, from + 3) % 3
    ensures !FenceAt(a, from) && Trail(a, from) < |a| - from ==> Trail(a, from + 1) == Trail(a, from)
    ensures !FenceAt(a, from) && Trail(a, from) == |a| - from ==> |a| - from < 3
  {
    var n := Trail(a, from);
    if FenceAt(a, from) {
      TrailUnique(a, from + 3, if n >= |a| - from - 3 then |a| - from - 3 else n);
    } else if n < |a| - from {
      TrailUnique(a, from + 1, n);
    }
  }

  lemma FenceInFront(a: string, b: string, from: nat)
    requires from + 3 <= |a|
    ensures FenceAt(a + b, from) <==> FenceAt(a, from)
  {
  }

  /** Fewer than three backticks end a: the next text decides whether they make a marker. */
  lemma TailCount(a: string, b: string, from: nat)
    requires from <= |a| && |a| - from < 3 && Trail(a, from) == |a| - from
    ensures CountFences(a, from) == 0
    ensures CountFences(a + b, from) == CountFences(b) + if |a| - from + Lead(b) % 3 >= 3 then 1 else 0
  {
    var t := |a| - from;
    NoneInShort(a, from);
    LeadCount(b, 0);
    if t + Lead(b) >= 3 && t > 0 {
      assert (a + b)[from..] == a[from..] + b;
      assert forall k :: from <= k < from + 3 ==> (a + b)[k] == '`';
      assert FenceAt(a + b, from);
      CountShifted(a + b, b, |a|, 3 - t);
      LeadCount(b, 3 - t);
    } else {
      ShortCount(a, b, from);
    }
  }

  lemma {:induction false} NoneInShort(a: string, from: nat)
    requires from <= |a| && |a| - from < 3
    ensures CountFences(a, from) == 0
    decreases |a| - from
  {
    if from < |a| { NoneInShort(a, from + 1); }
  }

  lemma {:induction false} ShortCount(a: string, b: string, from: nat)
    requires from <= |a| && (|a| - from + Lead(b) < 3 || from == |a|)
    ensures CountFences(a + b, from) == CountFences(b)
    decreases |a| - from
  {
    if from == |a| {
      CountShifted(a + b, b, |a|, 0);
    } else {
      assert Lead(b) < |b| ==> (a + b)[|a| + Lead(b)] == b[Lead(b)] != '`';
      ShortCount(a, b, from + 1);
    }
  }

  /** Main result on counting: cutting a text loses a marker exactly when it takes one apart. */
  lemma {:induction false} CountsAdd(a: string, b: string, from: nat)
    requires from <= |a|
    ensures CountFences(a + b, from)
         == CountFences(a, from) + CountFences(b) + if Trail(a, from) % 3 + Lead(b) % 3 >= 3 then 1 else 0
    decreases |a| - from
  {
    if Trail(a, from) == |a| - from < 3 {
      TailCount(a, b, from);
    } else {
      TrailStep(a, from);
      if FenceAt(a, from) {
        FenceInFront(a, b, from);
        CountsAdd(a, b, from + 3);
      } else {
        NoFenceOver(a, b, from);
        CountsAdd(a, b, from + 1);
      }
    }
  }

  /** A marker that reaches into the next text is all backticks from where it begins. */
  lemma NoFenceOver(a: string, b: string, from: nat)
    requires from < |a| && !FenceAt(a, from) && Trail(a, from) < |a| - from
    ensures !FenceAt(a + b, from)
  {
    if from + 3 <= |a| { FenceInFront(a, b, from); }
    var last := |a| - Trail(a, from) - 1;
    assert from <= last && (a + b)[last] == a[last] != '`';
  }

  /** How many of the first i cuts take a marker apart. */
  function SplitMarkers(chunks: seq<string>, gaps: seq<string>, i: nat): nat
    requires |gaps| == |chunks| && i <= |chunks|
  {
    if i == 0 then 0 else
      SplitMarkers(chunks, gaps, i - 1)
      + if SplitsMarker(Interleave(chunks[..i - 1], gaps[..i - 1]), chunks[i - 1]) then 1 else 0
  }

  lemma GapCount(t: string, gap: string)
    requires AllGap(gap)
    ensures CountFences(t + gap) == CountFences(t)
  {
    CountsAdd(t, gap, 0);
    NoneInGap(gap, 0);
    assert Lead(gap) == 0;
  }

  lemma {:induction false} NoneInGap(gap: string, from: nat)
    requires AllGap(gap)
    ensures CountFences(gap, from) == 0
    decreases |gap| - from
  {
    if from < |gap| { NoneInGap(gap, from + 1); }
  }

  /** One more chunk and gap. */
  lemma ChunkCount(chunks: seq<string>, gaps: seq<string>, i: nat)
    requires |gaps| == |chunks| && i < |chunks| && AllGap(gaps[i])
    ensures var before := Interleave(chunks[..i], gaps[..i]);
            CountFences(Interleave(chunks[..i + 1], gaps[..i + 1]))
            == CountFences(before) + CountFences(chunks[i]) + if SplitsMarker(before, chunks[i]) then 1 else 0
  {
    var before := Interleave(chunks[..i], gaps[..i]);
    CountsAdd(before, chunks[i], 0);
    GapCount(before + chunks[i], gaps[i]);
    assert chunks[..i + 1][..i] == chunks[..i] && gaps[..i + 1][..i] == gaps[..i];
  }

  lemma TotalSnoc(chunks: seq<string>, i: nat)
    requires i < |chunks|
    ensures TotalFences(chunks[..i + 1]) == TotalFences(chunks[..i]) + CountFences(chunks[i])
  {
    assert chunks[..i + 1][..i] == chunks[..i];
  }

  /** The text up to chunk i has the markers of the chunks before it, and one more for each marker cut in two. */
  lemma {:induction false} TextCount(chunks: seq<string>, gaps: seq<string>, i: nat)
    requires |gaps| == |chunks| && i <= |chunks| && forall k :: 0 <= k < |gaps| ==> AllGap(gaps[k])
    ensures CountFences(Interleave(chunks[..i], gaps[..i])) == TotalFences(chunks[..i]) + SplitMarkers(chunks, gaps, i)
  {
    if i > 0 {
      TextCount(chunks, gaps, i - 1);
      ChunkCount(chunks, gaps, i - 1);
      TotalSnoc(chunks, i - 1);
    }
  }

  /** A chunk is reopened as the markers of the text before it demand exactly when an even number were cut in two. */
  lemma OpenReadsTextIff(chunks: seq<string>, gaps: seq<string>, i: nat)
    requires |gaps| == |chunks| && i <= |chunks| && forall k :: 0 <= k < |gaps| ==> AllGap(gaps[k])
    ensures OpenBefore(chunks, i) == Odd(Interleave(chunks[..i], gaps[..i])) <==> SplitMarkers(chunks, gaps, i) % 2 == 0
  {
    OpenIsParity(chunks, i);
    TextCount(chunks, gaps, i);
    SameParityIff(TotalFences(chunks[..i]), SplitMarkers(chunks, gaps, i));
  }

  lemma SameParityIff(n: nat, m: nat)
    ensures (n % 2 == 1) == ((n + m) % 2 == 1) <==> m % 2 == 0
  {
  }

  /** Chunk i as it is sent: reopened if it begins inside a block, closed if it ends inside one and is not the last. */
  function Message(chunks: seq<string>, i: nat): string
    requires i < |chunks|
  {
    Wrapped(OpenBefore(chunks, i), chunks[i], OpenBefore(chunks, i + 1) && i < |chunks| - 1)
  }

  /** Every message but the last leaves no block open. */
  lemma MessageEven(chunks: seq<string>, i: nat)
    requires i < |chunks| - 1
    ensures !Odd(Message(chunks, i))
  {
    var result := Wrapped(OpenBefore(chunks, i), chunks[i], false);
    if OpenBefore(chunks, i + 1) {
      ClosingAddsOne(result, 0);
      WrapSteps(OpenBefore(chunks, i), chunks[i]);
    }
  }

  method RebalanceCodeFences(chunks: seq<string>) returns (balanced: seq<string>)
    ensures |balanced| == |chunks| && forall i :: 0 <= i < |chunks| ==> balanced[i] == Message(chunks, i)
  {
    balanced := [];
    var openFence := false;
    for index := 0 to |chunks|
      invariant |balanced| == index && openFence == OpenBefore(chunks, index)
      invariant forall i :: 0 <= i < index ==> balanced[i] == Message(chunks, i)
    {
      var result := chunks[index];
      if openFence { result := "```\n" + result; }
      WrapSteps(openFence, chunks[index]);
      openFence := CountFences(result) % 2 == 1;
      if openFence && index < |chunks| - 1 { result := result + "\n```"; }
      balanced := balanced + [result];
    }
  }

  /** Termination, size, parity and content, for every text and every limit. */
  method SplitForDiscord(converted: string, limit: int) returns (messages: seq<string>, ghost chunks: seq<string>)
    ensures |messages| == |chunks| && Reassembles(converted, chunks)
    ensures |converted| <= limit ==> messages == [converted]
    ensures forall i :: 0 <= i < |messages| ==> |messages[i]| <= limit || |messages[i]| <= EffectiveLimit(limit) + 8
    ensures limit >= 72 ==> forall i :: 0 <= i < |messages| ==> |messages[i]| <= limit
    ensures |converted| > limit ==> chunks == Chunks(converted, EffectiveLimit(limit))
    ensures |converted| > limit ==> forall i :: 0 <= i < |messages| ==> messages[i] == Message(chunks, i)
    ensures forall i :: 0 <= i < |messages| - 1 ==> !Odd(messages[i])
  {
    if |converted| <= limit {
      messages, chunks := [converted], [converted];
      WholeReassembles(converted);
      return;
    }
    var raw := CutText(converted, EffectiveLimit(limit));
    ChunksReassemble(converted, EffectiveLimit(limit));
    chunks := raw;
    messages := RebalanceCodeFences(raw);
    forall i | 0 <= i < |raw|
      ensures |messages[i]| <= EffectiveLimit(limit) + 8 && (i < |raw| - 1 ==> !Odd(messages[i]))
    {
      assert messages[i] == Message(raw, i);
      if i < |raw| - 1 { MessageEven(raw, i); }
    }
  }

  /** Where a text is cut: at the chosen place of what remains, then past the white space there. */
  function Chunks(text: string, limit: nat): seq<string>
    requires limit > 0
  {
    if |text| <= limit then (if text == "" then [] else [text]) else
      var cut := ChooseCut(text, limit);
      [text[..cut]] + Chunks(text[SkipGap(text, cut)..], limit)
  }

  /** The first chunk of a text that does not fit, and where the rest begins. */
  lemma FirstCut(text: string, limit: nat) returns (cut: nat, next: nat)
    requires 0 < limit < |text|
    ensures CutsAt(text, limit, cut) && cut <= next <= |text|
    ensures AllGap(text[cut..next]) && (next < |text| ==> !IsGap(text[next]))
    ensures Chunks(text, limit) == [text[..cut]] + Chunks(text[next..], limit)
  {
    cut := ChooseCut(text, limit);
    next := SkipGap(text, cut);
    ChooseCutCuts(text, limit);
  }

  /** Cutting loses nothing but white space at the cuts, and every chunk fits. */
  lemma {:induction false} ChunksReassemble(text: string, limit: nat)
    requires limit > 0
    ensures Reassembles(text, Chunks(text, limit))
    ensures forall i :: 0 <= i < |Chunks(text, limit)| ==> |Chunks(text, limit)[i]| <= limit
  {
    if |text| <= limit {
      WholeReassembles(text);
    } else {
      var cut := ChooseCut(text, limit);
      var next := SkipGap(text, cut);
      ChunksReassemble(text[next..], limit);
      CutInFront(text, cut, next, Chunks(text[next..], limit));
    }
  }

  method CutText(text: string, limit: nat) returns (chunks: seq<string>)
    requires limit > 0
    ensures chunks == Chunks(text, limit)
  {
    chunks := [];
    var remaining := text;
    while |remaining| > limit
      invariant chunks + Chunks(remaining, limit) == Chunks(text, limit)
      decreases |remaining|
    {
      var cut := ChooseCut(remaining, limit);
      var nextStart := SkipGap(remaining, cut);
      chunks := chunks + [remaining[..cut]];
      remaining := remaining[nextStart..];
    }
    if |remaining| > 0 {
      chunks := chunks + [remaining];
    }
  }

  /** A word: no white space, no backtick. */
  predicate Word(s: string) { forall k :: 0 <= k < |s| ==> !IsGap(s[k]) && s[k] != '`' }

  /** A marker that the hard cut at the limit falls into: neither chunk has it. */
  lemma MarkerCutInTwo(u: string, v: string)
    requires Word(u) && Word(v) && |u| == 63 && 8 < |v| <= 62
    ensures var text, chunks := u + FENCE + v, [u + "`", "``" + v];
            |text| > 74 && Chunks(text, EffectiveLimit(74)) == chunks
            && Odd(text) && TotalFences(chunks) == 0 && !OpenBefore(chunks, 2)
  {
    var text, a, b := u + FENCE + v, u + "`", "``" + v;
    assert text == a + b;
    CutInMarker(u, v);
    WordCount(a, 0);
    WordCount(b, 0);
    OneMarker(u, v);
    assert [a, b][..1] == [a] && [a][..0] == [] && [a, b][..2] == [a, b];
    assert TotalFences([a]) == 0;
    OpenIsParity([a, b], 2);
  }

  lemma CutInMarker(u: string, v: string)
    requires Word(u) && Word(v) && |u| == 63 && 8 < |v| <= 62
    ensures Chunks(u + FENCE + v, 64) == [u + "`", "``" + v]
  {
    var text := u + FENCE + v;
    assert text[..64] == u + "`" && text[64..] == "``" + v;
    assert forall k :: 0 <= k < 64 ==> !IsGap(text[k]);
    assert !IsGap(text[64]);
    assert LastIndexOf(text[..64], '\n') == -1 && LastIndexOf(text[..64], ' ') == -1;
    assert ChooseCut(text, 64) == 64 && SkipGap(text, 64) == 64;
    assert Chunks("``" + v, 64) == ["``" + v];
  }

  predicate NoThree(s: string) { forall k :: 0 <= k < |s| ==> !FenceAt(s, k) }

  lemma {:induction false} WordCount(s: string, from: nat)
    requires NoThree(s)
    ensures CountFences(s, from) == 0
    decreases |s| - from
  {
    if from < |s| { WordCount(s, from + 1); }
  }

  lemma OneMarker(u: string, v: string)
    requires Word(u) && Word(v)
    ensures CountFences(u + FENCE + v) == 1
  {
    CountsAdd(u + FENCE, v, 0);
    CountsAdd(u, FENCE, 0);
    WordCount(u, 0);
    WordCount(v, 0);
    assert FenceAt(FENCE, 0) && CountFences(FENCE, 3) == 0;
    assert Lead(v) == 0;
    TrailUnique(u, 0, 0);
  }
}
