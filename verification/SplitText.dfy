/** What the two message splitters share: choosing a cut, skipping white space, code fences. */
module SplitText {

  const FENCE := "```"

  predicate IsGap(c: char) { c == '\n' || c == ' ' }

  predicate AllGap(s: string) { forall i :: 0 <= i < |s| ==> IsGap(s[i]) }

  /** `lastIndexOf`, -1 when absent. */
  function LastIndexOf(s: string, c: char): (i: int)
    ensures -1 <= i < |s| && (i >= 0 ==> s[i] == c)
    ensures forall k :: i < k < |s| ==> s[k] != c
  {
    if s == [] then -1 else if s[|s| - 1] == c then |s| - 1 else LastIndexOf(s[..|s| - 1], c)
  }

  lemma LastIndexAt(s: string, c: char, i: nat)
    requires i < |s| && s[i] == c && forall k :: i < k < |s| ==> s[k] != c
    ensures LastIndexOf(s, c) == i
  {
  }

  /** The last newline of the slice, else its last space if that is late enough, else the limit itself. */
  function ChooseCut(text: string, limit: nat): (cut: nat)
    requires limit <= |text|
    ensures cut <= limit
    ensures limit > 0 && cut == 0 ==> text[0] == '\n'
  {
    var slice := text[..limit];
    var newline, space := LastIndexOf(slice, '\n'), LastIndexOf(slice, ' ');
    if newline >= limit * 6 / 10 then newline
    else if space > limit * 6 / 10 then space
    else limit
  }

  /** In the last two fifths of the slice, its beginning included for newlines and left out for spaces. */
  predicate LateNewline(text: string, limit: nat, i: nat) {
    i < limit <= |text| && text[i] == '\n' && 6 * limit < 10 * (i + 1)
  }

  predicate LateSpace(text: string, limit: nat, i: nat) { i < limit <= |text| && text[i] == ' ' && 6 * limit < 10 * i }

  /** The last newline is preferred, if it comes late, then the last space that comes late, then the limit. */
  predicate CutsAt(text: string, limit: nat, cut: nat) {
    if exists i :: 0 <= i < limit && LateNewline(text, limit, i) then
      LateNewline(text, limit, cut) && forall i :: cut < i < limit ==> !LateNewline(text, limit, i)
    else if exists i :: 0 <= i < limit && LateSpace(text, limit, i) then
      LateSpace(text, limit, cut) && forall i :: cut < i < limit ==> !LateSpace(text, limit, i)
    else cut == limit
  }

  lemma ChooseCutCuts(text: string, limit: nat)
    requires limit <= |text|
    ensures CutsAt(text, limit, ChooseCut(text, limit))
  {
    var slice := text[..limit];
    var newline, space := LastIndexOf(slice, '\n'), LastIndexOf(slice, ' ');
    forall i | 0 <= i < limit && LateNewline(text, limit, i) ensures i <= newline { assert slice[i] == '\n'; }
    forall i | 0 <= i < limit && LateSpace(text, limit, i) ensures i <= space { assert slice[i] == ' '; }
    if newline >= limit * 6 / 10 {
      assert LateNewline(text, limit, newline);
    } else if space > limit * 6 / 10 {
      assert LateSpace(text, limit, space);
    }
  }

  /** Where the next chunk starts: past the white space after the cut. */
  function SkipGap(text: string, from: nat): (i: nat)
    requires from <= |text|
    ensures from <= i <= |text| && AllGap(text[from..i]) && (i < |text| ==> !IsGap(text[i]))
    decreases |text| - from
  {
    if from < |text| && IsGap(text[from]) then
      var i := SkipGap(text, from + 1);
      assert text[from..i] == [text[from]] + text[from + 1..i];
      i
    else from
  }

  /** Chunks with the white space dropped after each, put together again. */
  function Interleave(chunks: seq<string>, gaps: seq<string>): string
    requires |chunks| == |gaps|
  {
    if chunks == [] then "" else
      var n := |chunks| - 1;
      Interleave(chunks[..n], gaps[..n]) + chunks[n] + gaps[n]
  }

  lemma Regroup<T>(s: seq<T>, x: T, t: seq<T>)
    ensures s + ([x] + t) == s + [x] + t
  {
  }

  lemma Assoc<T>(a: seq<T>, b: seq<T>, c: seq<T>)
    ensures (a + b) + c == a + (b + c)
  {
  }

  /** A splitting that loses nothing but white space at the cuts. */
  ghost predicate Reassembles(text: string, chunks: seq<string>) {
    exists gaps :: GapsFor(text, chunks, gaps)
  }

  ghost predicate GapsFor(text: string, chunks: seq<string>, gaps: seq<string>) {
    |gaps| == |chunks| && (forall i :: 0 <= i < |gaps| ==> AllGap(gaps[i])) && Interleave(chunks, gaps) == text
  }

  lemma {:induction false} InterleaveCons(chunk: string, gap: string, chunks: seq<string>, gaps: seq<string>)
    requires |chunks| == |gaps|
    ensures Interleave([chunk] + chunks, [gap] + gaps) == chunk + gap + Interleave(chunks, gaps)
  {
    if chunks == [] {
      assert ([chunk] + chunks)[..0] == [] && ([gap] + gaps)[..0] == [];
    } else {
      var n := |chunks| - 1;
      InterleaveCons(chunk, gap, chunks[..n], gaps[..n]);
      assert ([chunk] + chunks)[..n + 1] == [chunk] + chunks[..n] && ([gap] + gaps)[..n + 1] == [gap] + gaps[..n];
    }
  }

  /** One cut in front of what reassembles. */
  lemma CutInFront(text: string, cut: nat, next: nat, rest: seq<string>)
    requires cut <= next <= |text| && AllGap(text[cut..next]) && Reassembles(text[next..], rest)
    ensures Reassembles(text, [text[..cut]] + rest)
  {
    var gaps :| GapsFor(text[next..], rest, gaps);
    InterleaveCons(text[..cut], text[cut..next], rest, gaps);
    assert text == text[..cut] + text[cut..next] + text[next..];
    assert GapsFor(text, [text[..cut]] + rest, [text[cut..next]] + gaps);
  }

  lemma WholeReassembles(text: string)
    ensures Reassembles(text, [text]) && (text == "" ==> Reassembles(text, []))
  {
    InterleaveCons(text, "", [], []);
    assert GapsFor(text, [text], [""]);
    if text == "" { assert GapsFor(text, [], []); }
  }

  // ----- fences -----

  predicate FenceAt(s: string, i: int) {
    0 <= i && i + 3 <= |s| && s[i] == '`' && s[i + 1] == '`' && s[i + 2] == '`'
  }

  predicate HasFence(s: string) { exists i :: 0 <= i < |s| && FenceAt(s, i) }

  /** A text between two fence markers on their own. */
  function Wrapped(before: bool, raw: string, after: bool): (r: string)
    ensures |r| <= |raw| + 8
  {
    (if before then FENCE + "\n" else "") + raw + (if after then "\n" + FENCE else "")
  }

  function Closed(s: string): string { s + "\n" + FENCE }

  lemma WrapSteps(before: bool, raw: string)
    ensures Wrapped(before, raw, false) == if before then "```\n" + raw else raw
    ensures Wrapped(before, raw, true) == Wrapped(before, raw, false) + "\n```" == Closed(Wrapped(before, raw, false))
  {
  }

  /** Closing marker appended: it is a fence of its own, and no other fence appears. */
  lemma FencesOfClosed(s: string, i: int)
    ensures var closed := Closed(s);
            FenceAt(closed, i) <==> FenceAt(s, i) || i == |s| + 1
  {
    var closed := Closed(s);
    assert closed[|s|] == '\n';
    assert closed[|s| + 1..] == FENCE;
  }
}
