/** Thread compaction: what is kept, what is summarized, and what may be deleted. */
module Compaction {
  import opened Options

  datatype Role = User | Assistant | Tool

  datatype Row = Row(id: nat, role: Role, content: string)

  datatype Summary = Summary(text: string, lastMessageId: nat)

  const KEEP_TOKENS := 20_000
  const MAX_SUMMARY_CHARS := 4_000

  // ----- rows -----

  predicate Ascending(rows: seq<Row>) {
    forall i, j :: 0 <= i < j < |rows| ==> rows[i].id < rows[j].id
  }

  /**
   * What a statement selects by: `role IN ('user','assistant')`; what a compaction leaves, nothing up to
   * lastSummarizedId and no tool row before keepMinId; the messages between two ids.
   */
  datatype Clause =
    | InConversation
    | Survives(lastSummarizedId: int, keepMinId: nat)
    | Between(startId: int, keepMinId: nat)

  predicate Selects(c: Clause, row: Row) {
    match c
    case InConversation => row.role != Tool
    case Survives(last, keepMinId) => row.id > last && !(row.role == Tool && row.id < keepMinId)
    case Between(startId, keepMinId) => row.id > startId && row.id < keepMinId
  }

  /** A selection by `WHERE`, in id order. */
  function Where(rows: seq<Row>, keep: Clause): seq<Row> {
    if rows == [] then [] else
      Where(rows[..|rows| - 1], keep) + if Selects(keep, rows[|rows| - 1]) then [rows[|rows| - 1]] else []
  }

  lemma {:induction false} WhereMembers(rows: seq<Row>, keep: Clause)
    ensures |Where(rows, keep)| <= |rows|
    ensures forall x :: x in Where(rows, keep) <==> x in rows && Selects(keep, x)
  {
    if rows != [] {
      var n := |rows| - 1;
      WhereMembers(rows[..n], keep);
      assert rows == rows[..n] + [rows[n]];
    }
  }

  lemma {:induction false} WhereAscending(rows: seq<Row>, keep: Clause)
    requires Ascending(rows)
    ensures Ascending(Where(rows, keep))
  {
    if rows != [] {
      var n := |rows| - 1;
      WhereAscending(rows[..n], keep);
      WhereMembers(rows[..n], keep);
      var r := Where(rows[..n], keep);
      forall i | 0 <= i < |r| ensures r[i].id < rows[n].id {
        assert r[i] in rows[..n];
      }
    }
  }

  function Conversation(rows: seq<Row>): seq<Row> { Where(rows, InConversation) }

  /** Two ascending listings of the same rows are the same listing. */
  lemma {:induction false} AscendingUnique(a: seq<Row>, b: seq<Row>)
    requires Ascending(a) && Ascending(b) && forall x :: x in a <==> x in b
    ensures a == b
  {
    assert |a| > 0 ==> a[0] in b;
    assert |b| > 0 ==> b[0] in a;
    if a != [] && b != [] {
      assert a[0] in b && b[0] in a;
      assert a[0] == b[0];
      forall x ensures x in a[1..] <==> x in b[1..] {
        InTail(a, x);
        InTail(b, x);
      }
      AscendingUnique(a[1..], b[1..]);
      assert a == [a[0]] + a[1..] && b == [b[0]] + b[1..];
    }
  }

  lemma InTail(a: seq<Row>, x: Row)
    requires a != [] && Ascending(a)
    ensures x in a[1..] <==> x in a && x != a[0]
  {
    assert a == [a[0]] + a[1..];
  }

  predicate IdsBetween(rows: seq<Row>, low: int, high: int) { forall x :: x in rows ==> low < x.id < high }

  lemma AppendedRow(rows: seq<Row>, row: Row, low: int)
    requires Ascending(rows) && IdsBetween(rows, low, row.id) && low < row.id
    ensures Ascending(rows + [row]) && IdsBetween(rows + [row], low, row.id + 1)
    ensures Conversation(rows + [row]) == Conversation(rows) + if row.role != Tool then [row] else []
  {
    forall i | 0 <= i < |rows| ensures rows[i].id < row.id { assert rows[i] in rows; }
    assert (rows + [row])[..|rows|] == rows;
  }

  lemma ConversationFacts(rows: seq<Row>, low: int, high: int)
    requires Ascending(rows) && IdsBetween(rows, low, high)
    ensures Ascending(Conversation(rows)) && forall x :: x in Conversation(rows) ==> x.id > low
  {
    WhereMembers(rows, InConversation);
    WhereAscending(rows, InConversation);
  }

  // ----- the keep window -----

  type TokenEstimate = string -> nat

  function Tokens(estimate: TokenEstimate, msgs: seq<Row>): nat {
    if msgs == [] then 0 else estimate(msgs[0].content) + Tokens(estimate, msgs[1..])
  }

  /** The window from k on is the longest ending of the thread within budget, or its last message alone. */
  predicate KeepsFrom(estimate: TokenEstimate, msgs: seq<Row>, k: nat) {
    && k < |msgs|
    && (k == |msgs| - 1 || Tokens(estimate, msgs[k..]) <= 20_000)
    && (k == 0 || Tokens(estimate, msgs[k - 1..]) > 20_000)
  }

  /** The window is determined by its two clauses. */
  lemma KeepWindowUnique(estimate: TokenEstimate, msgs: seq<Row>, j: nat, k: nat)
    requires KeepsFrom(estimate, msgs, j) && KeepsFrom(estimate, msgs, k)
    ensures j == k
  {
    if j < k { LongerCostsMore(estimate, msgs, j, k - 1); }
    if k < j { LongerCostsMore(estimate, msgs, k, j - 1); }
  }

  lemma {:induction false} LongerCostsMore(estimate: TokenEstimate, msgs: seq<Row>, j: nat, k: nat)
    requires j <= k <= |msgs|
    ensures Tokens(estimate, msgs[j..]) >= Tokens(estimate, msgs[k..])
    decreases k - j
  {
    if j < k {
      assert msgs[j..][1..] == msgs[j + 1..];
      LongerCostsMore(estimate, msgs, j + 1, k);
    }
  }

  method SelectKeepWindow(estimate: TokenEstimate, msgs: seq<Row>) returns (k: nat)
    requires msgs != []
    ensures KeepsFrom(estimate, msgs, k)
  {
    k := |msgs|;
    var keepTokens := 0;
    while k > 0
      invariant k <= |msgs| && keepTokens == Tokens(estimate, msgs[k..])
      invariant k < |msgs| - 1 ==> keepTokens <= KEEP_TOKENS
    {
      var tokens := estimate(msgs[k - 1].content);
      assert msgs[k - 1..][1..] == msgs[k..];
      if k < |msgs| && keepTokens + tokens > KEEP_TOKENS { break; }
      k := k - 1;
      keepTokens := keepTokens + tokens;
    }
  }

  // ----- the candidates and their transcript -----

  function Prefix(m: Row): string {
    if m.role == User then "User: " else "Assistant: "
  }

  function Line(m: Row): string { Prefix(m) + m.content }

  /** What a message is in a transcript: who said it, and what. */
  function Spoken(m: Row): string {
    match m.role
    case User => "User: " + m.content
    case _ => "Assistant: " + m.content
  }

  /** Cost of one message in the transcript: its line and the joining newline. */
  function TranscriptLineLength(m: Row): nat { |Prefix(m)| + |m.content| + 1 }

  function Cost(msgs: seq<Row>): nat {
    if msgs == [] then 0 else Cost(msgs[..|msgs| - 1]) + TranscriptLineLength(msgs[|msgs| - 1])
  }

  /** The first c messages fill the budget: as many as fit, but always one. */
  predicate Fills(msgs: seq<Row>, c: nat, maxChars: nat) {
    && 1 <= c <= |msgs|
    && (c == 1 || Cost(msgs[..c]) <= maxChars)
    && (c == |msgs| || Cost(msgs[..c + 1]) > maxChars)
  }

  lemma CostSnoc(msgs: seq<Row>, i: nat)
    requires i < |msgs|
    ensures Cost(msgs[..i + 1]) == Cost(msgs[..i]) + TranscriptLineLength(msgs[i])
  {
    assert msgs[..i + 1][..i] == msgs[..i];
  }

  method SelectCandidates(all: seq<Row>, maxChars: nat) returns (c: nat)
    requires all != []
    ensures Fills(all, c, maxChars)
  {
    c := 0;
    var chars := 0;
    while c < |all|
      invariant c <= |all| && chars == Cost(all[..c])
      invariant c <= 1 || chars <= maxChars
    {
      var cost := TranscriptLineLength(all[c]);
      CostSnoc(all, c);
      if c > 0 && chars + cost > maxChars { break; }
      c := c + 1;
      chars := chars + cost;
    }
    assert all[..|all|] == all;
  }

  function JoinLines(lines: seq<string>): string {
    if lines == [] then "" else if |lines| == 1 then lines[0]
    else JoinLines(lines[..|lines| - 1]) + "\n" + lines[|lines| - 1]
  }

  /** A line as it stands in a transcript of at most maxChars. */
  function Clipped(line: string, maxChars: nat): string {
    if |line| > maxChars then line[..maxChars] else line
  }

  function Lines(msgs: seq<Row>, maxChars: nat): seq<string> {
    seq(|msgs|, i requires 0 <= i < |msgs| => Clipped(Spoken(msgs[i]), maxChars))
  }

  lemma LineIsSpoken(m: Row)
    ensures Line(m) == Spoken(m) && TranscriptLineLength(m) == |Spoken(m)| + 1
  {
  }

  /** What the running total says about the lines so far. */
  predicate Totals(msgs: seq<Row>, maxChars: nat, total: nat) {
    if |msgs| == 0 then total == 0
    else
      && total == |JoinLines(Lines(msgs, maxChars))| + 1
      && (if |msgs| == 1 then total == |Clipped(Spoken(msgs[0]), maxChars)| + 1
          else total == Cost(msgs) <= maxChars)
  }

  /** The transcript shows a beginning of the messages and never outgrows the budget; selected candidates all appear. */
  method BuildTranscript(msgs: seq<Row>, maxChars: nat) returns (transcript: string, ghost shown: nat)
    ensures shown <= |msgs| && |transcript| <= maxChars
    ensures transcript == JoinLines(Lines(msgs[..shown], maxChars))
    ensures msgs != [] && Fills(msgs, |msgs|, maxChars) ==> shown == |msgs|
  {
    var lines: seq<string> := [];
    var total: nat := 0;
    for i := 0 to |msgs|
      invariant Told(msgs, i, maxChars, lines, total)
    {
      var line := Line(msgs[i]);
      if |lines| > 0 && total + |line| + 1 > maxChars {
        Stopped(msgs, i, maxChars, lines, total);
        transcript, shown := JoinLines(lines), i;
        return;
      }
      NextTold(msgs, i, maxChars, lines, total);
      line := Clipped(line, maxChars);
      lines := lines + [line];
      total := total + |line| + 1;
    }
    AllTold(msgs, maxChars, lines, total);
    transcript, shown := JoinLines(lines), |msgs|;
  }

  /** What the loop has gathered from the first i messages. */
  predicate Told(msgs: seq<Row>, i: nat, maxChars: nat, lines: seq<string>, total: nat) {
    i <= |msgs| && lines == Lines(msgs[..i], maxChars) && Totals(msgs[..i], maxChars, total)
  }

  lemma NextTold(msgs: seq<Row>, i: nat, maxChars: nat, lines: seq<string>, total: nat)
    requires i < |msgs| && Told(msgs, i, maxChars, lines, total)
    requires lines != [] ==> total + |Line(msgs[i])| + 1 <= maxChars
    ensures var line := Clipped(Line(msgs[i]), maxChars);
            Told(msgs, i + 1, maxChars, lines + [line], total + |line| + 1)
  {
    LineIsSpoken(msgs[i]);
    NextTotal(msgs, i, maxChars, total);
  }

  lemma Stopped(msgs: seq<Row>, i: nat, maxChars: nat, lines: seq<string>, total: nat)
    requires i < |msgs| && Told(msgs, i, maxChars, lines, total)
    requires lines != [] && total + |Line(msgs[i])| + 1 > maxChars
    ensures lines == Lines(msgs[..i], maxChars) && |JoinLines(lines)| <= maxChars && !Fills(msgs, |msgs|, maxChars)
  {
    LineIsSpoken(msgs[i]);
    TooMuch(msgs, i, total, maxChars);
  }

  lemma AllTold(msgs: seq<Row>, maxChars: nat, lines: seq<string>, total: nat)
    requires Told(msgs, |msgs|, maxChars, lines, total)
    ensures lines == Lines(msgs[..|msgs|], maxChars) && |JoinLines(lines)| <= maxChars
  {
  }

  lemma JoinSnoc(lines: seq<string>, line: string)
    ensures JoinLines(lines + [line]) == if lines == [] then line else JoinLines(lines) + "\n" + line
  {
    assert (lines + [line])[..|lines|] == lines;
  }

  lemma NextTotal(msgs: seq<Row>, i: nat, maxChars: nat, total: nat)
    requires i < |msgs| && Totals(msgs[..i], maxChars, total)
    requires i > 0 ==> total + |Spoken(msgs[i])| + 1 <= maxChars
    ensures Lines(msgs[..i + 1], maxChars) == Lines(msgs[..i], maxChars) + [Clipped(Spoken(msgs[i]), maxChars)]
    ensures Totals(msgs[..i + 1], maxChars, total + |Clipped(Spoken(msgs[i]), maxChars)| + 1)
  {
    var before, line := Lines(msgs[..i], maxChars), Clipped(Spoken(msgs[i]), maxChars);
    assert Lines(msgs[..i + 1], maxChars) == before + [line];
    JoinSnoc(before, line);
    if i > 0 {
      CostSnoc(msgs, i);
      CostSnoc(msgs, 0);
      LineIsSpoken(msgs[0]);
      assert total == Cost(msgs[..i]);
      LineIsSpoken(msgs[i]);
      assert |line| + 1 == TranscriptLineLength(msgs[i]);
    }
  }

  /** Where the transcript stops, the selection would have stopped as well. */
  lemma TooMuch(msgs: seq<Row>, i: nat, total: nat, maxChars: nat)
    requires 0 < i < |msgs| && total + |Spoken(msgs[i])| + 1 > maxChars && Totals(msgs[..i], maxChars, total)
    ensures !Fills(msgs, |msgs|, maxChars)
  {
    CostSnoc(msgs, i);
    LineIsSpoken(msgs[i]);
    if i == 1 {
      CostSnoc(msgs, 0);
      LineIsSpoken(msgs[0]);
    }
    assert total <= Cost(msgs[..i]);
    CostGrows(msgs, i + 1, |msgs|);
    assert msgs[..|msgs|] == msgs;
  }

  lemma {:induction false} CostGrows(msgs: seq<Row>, i: nat, j: nat)
    requires i <= j <= |msgs|
    ensures Cost(msgs[..i]) <= Cost(msgs[..j])
    decreases j
  {
    if i < j {
      CostGrows(msgs, i, j - 1);
      CostSnoc(msgs, j - 1);
      assert j - 1 + 1 == j;
    }
  }

  // ----- the summary -----

  function LastNewline(s: string): (i: int)
    ensures -1 <= i < |s| && (i >= 0 ==> s[i] == '\n')
    ensures forall k :: i < k < |s| ==> s[k] != '\n'
  {
    if s == [] then -1 else if s[|s| - 1] == '\n' then |s| - 1 else LastNewline(s[..|s| - 1])
  }

  /** A beginning of the text, at most max long, cut at its last line break if that is in the second half. */
  function CapOnLineBoundary(text: string, max: nat): (r: string)
    ensures r <= text && |r| <= max
    ensures |text| <= max ==> r == text
    ensures |r| < max && |r| < |text| ==> text[|r|] == '\n' && 2 * |r| > max
    ensures |text| > max ==> forall k :: |r| < k < max && 2 * k > max ==> text[k] != '\n'
    ensures |text| > max && |r| == max ==> forall k :: 0 <= k < max && 2 * k > max ==> text[k] != '\n'
  {
    if |text| <= max then text else
      var hard := text[..max];
      var nl := LastNewline(hard);
      assert forall k :: 0 <= k < max ==> hard[k] == text[k];
      if 2 * nl > max then hard[..nl] else hard
  }

  // ----- pruning loses exactly the summarized messages -----

  lemma PrunedConversation(rows: seq<Row>, c: nat, keepMinId: nat)
    requires Ascending(rows) && 1 <= c <= |Conversation(rows)|
    ensures var last := Conversation(rows)[c - 1].id;
            Conversation(Where(rows, Survives(last, keepMinId))) == Conversation(rows)[c..]
  {
    var all := Conversation(rows);
    var last := all[c - 1].id;
    var left := Where(rows, Survives(last, keepMinId));
    WhereAscending(rows, InConversation);
    WhereAscending(rows, Survives(last, keepMinId));
    WhereAscending(left, InConversation);
    WhereMembers(rows, InConversation);
    WhereMembers(rows, Survives(last, keepMinId));
    WhereMembers(left, InConversation);
    forall x ensures x in Conversation(left) <==> x in all[c..] { SuffixById(all, c, x); }
    AscendingUnique(Conversation(left), all[c..]);
  }

  lemma SuffixById(all: seq<Row>, c: nat, x: Row)
    requires Ascending(all) && 1 <= c <= |all|
    ensures x in all[c..] <==> x in all && x.id > all[c - 1].id
  {
    if x in all && x.id > all[c - 1].id {
      var i :| 0 <= i < |all| && all[i] == x;
      assert i >= c;
      assert all[c..][i - c] == x;
    }
    if x in all[c..] {
      var i :| 0 <= i < |all[c..]| && all[c..][i] == x;
      assert all[c + i] == x && all[c - 1].id < all[c + i].id;
    }
  }

  lemma PrefixById(all: seq<Row>, k: nat, x: Row)
    requires Ascending(all) && k < |all|
    ensures x in all[..k] <==> x in all && x.id < all[k].id
  {
    if x in all && x.id < all[k].id {
      var i :| 0 <= i < |all| && all[i] == x;
      assert i < k;
      assert all[..k][i] == x;
    }
    if x in all[..k] {
      var i :| 0 <= i < k && all[i] == x;
      assert all[i].id < all[k].id;
    }
  }

  lemma SurvivorsInRange(rows: seq<Row>, last: nat, keepMinId: nat)
    requires Ascending(rows) && last < keepMinId
    ensures var left := Where(rows, Survives(last, keepMinId));
            && Ascending(left)
            && (forall x :: x in left ==> x in rows && x.id > last)
            && (forall x :: x in rows && x.id >= keepMinId ==> x in left)
  {
    WhereMembers(rows, Survives(last, keepMinId));
    WhereAscending(rows, Survives(last, keepMinId));
  }

  /** The tail before the keep window is what the id filter selects. */
  lemma CandidatesArePrefix(all: seq<Row>, k: nat, startId: int)
    requires Ascending(all) && k < |all| && forall x :: x in all ==> x.id > startId
    ensures Where(all, Between(startId, all[k].id)) == all[..k]
  {
    WhereMembers(all, Between(startId, all[k].id));
    WhereAscending(all, Between(startId, all[k].id));
    forall x ensures x in Where(all, Between(startId, all[k].id)) <==> x in all[..k] { PrefixById(all, k, x); }
    AscendingUnique(Where(all, Between(startId, all[k].id)), all[..k]);
  }

  // ----- the thread -----

  /** Ids ascend between the two bounds, and the summarized messages and the stored ones are all the messages. */
  ghost predicate StoreOk(rows: seq<Row>, low: int, nextId: nat, appended: seq<Row>, summarized: seq<Row>) {
    && Ascending(rows) && low < nextId
    && IdsBetween(rows, low, nextId)
    && appended == summarized + Conversation(rows)
  }

  lemma StoreAppends(rows: seq<Row>, low: int, nextId: nat, appended: seq<Row>, summarized: seq<Row>, role: Role,
      content: string)
    requires StoreOk(rows, low, nextId, appended, summarized)
    ensures var added := Added(nextId, role, content);
            StoreOk(rows + [Row(nextId, role, content)], low, nextId + 1, appended + added, summarized)
            && Conversation(rows + [Row(nextId, role, content)]) == Conversation(rows) + added
  {
    AppendedRow(rows, Row(nextId, role, content), low);
    Regroup(summarized, Conversation(rows), Added(nextId, role, content));
  }

  /** What a pass means to summarize and to keep. */
  datatype Plan = Plan(candidates: seq<Row>, keepMinId: nat)

  /**
   * What happens while the summarizer runs: rows arrive, then it fails or answers (the text is already trimmed),
   * perhaps too late.
   */
  datatype Outcome = Outcome(arrivals: seq<Row>, answer: Option<string>, aborted: bool)

  /** The window is the keep window of the thread; the candidates fill the summarizer's budget before it. */
  ghost predicate ChosenFrom(estimate: TokenEstimate, maxInputChars: nat, all: seq<Row>, plan: Plan) {
    exists k: nat :: ChosenAt(estimate, maxInputChars, all, plan, k)
  }

  ghost predicate ChosenAt(estimate: TokenEstimate, maxInputChars: nat, all: seq<Row>, plan: Plan, k: nat) {
    && KeepsFrom(estimate, all, k) && all[k].id == plan.keepMinId
    && |plan.candidates| <= k && plan.candidates <= all
    && (k > 0 ==> Fills(all[..k], |plan.candidates|, maxInputChars))
  }

  /** No candidates exactly when everything is kept; otherwise all of them are older than the window. */
  predicate ProperPlan(estimate: TokenEstimate, all: seq<Row>, plan: Plan) {
    && (plan.candidates == [] <==> KeepsFrom(estimate, all, 0))
    && (plan.candidates == [] ==> all != [] && plan.keepMinId == all[0].id)
    && (plan.candidates != [] ==> plan.candidates[|plan.candidates| - 1].id < plan.keepMinId)
  }

  lemma PlanIsProper(estimate: TokenEstimate, maxInputChars: nat, all: seq<Row>, k: nat, c: nat, plan: Plan)
    requires Ascending(all) && KeepsFrom(estimate, all, k) && c <= k
    requires k > 0 ==> 1 <= c && Fills(all[..k], c, maxInputChars)
    requires plan == Plan(all[..k][..c], all[k].id)
    ensures ChosenFrom(estimate, maxInputChars, all, plan) && ProperPlan(estimate, all, plan)
  {
    assert all[..k][..c] == all[..c];
    if KeepsFrom(estimate, all, 0) { KeepWindowUnique(estimate, all, 0, k); }
    assert c > 0 ==> all[c - 1].id < all[k].id;
    assert ChosenAt(estimate, maxInputChars, all, plan, k);
  }

  function StartOf(summary: Option<Summary>): nat { if summary.Some? then summary.value.lastMessageId else 0 }

  /** What is stored when the attempts begin. */
  datatype Progress = Progress(rows: seq<Row>, stored: seq<Row>, talk: seq<Row>, summarized: seq<Row>,
      summary: Option<Summary>)

  /** What storing a row adds to the conversation. */
  function Added(id: nat, role: Role, content: string): seq<Row> {
    if role != Tool then [Row(id, role, content)] else []
  }

  /** The user and assistant messages among rows that are stored from an id on. */
  function Messages(arrivals: seq<Row>, firstId: nat): seq<Row> {
    if arrivals == [] then [] else
      var n := |arrivals| - 1;
      Messages(arrivals[..n], firstId) + Added(firstId + n, arrivals[n].role, arrivals[n].content)
  }

  lemma MessagesSnoc(arrivals: seq<Row>, i: nat, firstId: nat)
    requires i < |arrivals|
    ensures Messages(arrivals[..i + 1], firstId)
         == Messages(arrivals[..i], firstId) + Added(firstId + i, arrivals[i].role, arrivals[i].content)
  {
    assert arrivals[..i + 1][..i] == arrivals[..i];
  }

  lemma Regroup<T>(a: seq<T>, b: seq<T>, c: seq<T>)
    ensures (a + b) + c == a + (b + c)
  {
  }

  lemma PrefixTrans<T>(a: seq<T>, b: seq<T>, c: seq<T>)
    requires a <= b <= c
    ensures a <= c
  {
  }

  /** The summarizer answered in time. */
  predicate Commits(outcome: Outcome) { outcome.answer.Some? && outcome.answer.value != "" && !outcome.aborted }

  predicate ThrewBefore(outcomes: seq<Outcome>, attempts: nat)
    requires attempts <= |outcomes|
  {
    forall i :: 0 <= i < attempts ==> outcomes[i].answer.None?
  }

  /** All attempts but the last one failed in the summarizer, and a run that was given up was not taken further. */
  predicate OthersThrew(outcomes: seq<Outcome>, abortedBefore: seq<bool>, attempts: nat)
    requires attempts <= |outcomes| == |abortedBefore|
  {
    && (forall i :: 0 <= i < attempts ==> !abortedBefore[i])
    && (attempts > 0 ==> ThrewBefore(outcomes, attempts - 1))
  }

  lemma OneMoreAttempt(outcomes: seq<Outcome>, abortedBefore: seq<bool>, attempt: nat)
    requires attempt < |outcomes| == |abortedBefore| && !abortedBefore[attempt]
    requires OthersThrew(outcomes, abortedBefore, attempt) && ThrewBefore(outcomes, attempt)
    ensures OthersThrew(outcomes, abortedBefore, attempt + 1)
    ensures outcomes[attempt].answer.None? ==> ThrewBefore(outcomes, attempt + 1)
  {
  }

  /** The selected candidates fit the transcript, whole lines of them where there are several. */
  lemma CandidatesFill(estimate: TokenEstimate, maxInputChars: nat, all: seq<Row>, plan: Plan)
    requires ChosenFrom(estimate, maxInputChars, all, plan) && plan.candidates != []
    ensures Fills(plan.candidates, |plan.candidates|, maxInputChars)
    ensures |plan.candidates| > 1 ==>
              forall m :: m in plan.candidates ==> Clipped(Spoken(m), maxInputChars) == Spoken(m)
  {
    var k: nat :| ChosenAt(estimate, maxInputChars, all, plan, k);
    var c := plan.candidates;
    assert all[..k][..|c|] == c[..|c|] == c;
    if |c| > 1 { WholeLines(c, maxInputChars); }
  }

  lemma WholeLines(msgs: seq<Row>, maxChars: nat)
    requires Cost(msgs) <= maxChars
    ensures forall m :: m in msgs ==> Clipped(Spoken(m), maxChars) == Spoken(m)
  {
    forall i | 0 <= i < |msgs| ensures |Spoken(msgs[i])| <= maxChars {
      CostCovers(msgs, i);
      LineIsSpoken(msgs[i]);
    }
  }

  lemma {:induction false} CostCovers(msgs: seq<Row>, i: nat)
    requires i < |msgs|
    ensures TranscriptLineLength(msgs[i]) <= Cost(msgs)
  {
    var n := |msgs| - 1;
    if i < n { CostCovers(msgs[..n], i); }
  }

  class ThreadStore {
    const estimate: TokenEstimate
    const maxInputChars: nat
    var rows: seq<Row>
    var nextId: nat
    var summary: Option<Summary>
    var totalTokens: nat
    ghost var appended: seq<Row>      // every user and assistant message ever stored
    ghost var summarized: seq<Row>    // those whose summary was committed

    function StartId(): nat
      reads this
    {
      StartOf(summary)
    }

    /** Conservation: the summarized messages and the stored ones are all the messages, in order. */
    ghost predicate Valid()
      reads this
    {
      StoreOk(rows, StartId(), nextId, appended, summarized)
    }

    constructor (estimate: TokenEstimate, maxInputChars: nat)
      ensures Valid() && appended == [] && rows == [] && nextId == 1 && summary == None && totalTokens == 0
    {
      this.estimate, this.maxInputChars := estimate, maxInputChars;
      rows, nextId, summary, totalTokens := [], 1, None, 0;
      appended, summarized := [], [];
    }

    method Append(role: Role, content: string)
      requires Valid()
      modifies `rows, `nextId, `appended
      ensures Valid() && nextId == old(nextId) + 1
      ensures rows == old(rows) + [Row(old(nextId), role, content)]
      ensures appended == old(appended) + Added(old(nextId), role, content)
      ensures Conversation(rows) == old(Conversation(rows)) + Added(old(nextId), role, content)
    {
      var row := Row(nextId, role, content);
      ghost var added := Added(nextId, role, content);
      StoreAppends(rows, StartId(), nextId, appended, summarized, role, content);
      rows := rows + [row];
      nextId := nextId + 1;
      appended := appended + added;
    }

    /** The candidates head the stored conversation; the window they stop before is a keep window. */
    ghost predicate PlanOk(plan: Plan)
      reads this
    {
      && plan.candidates != [] && plan.candidates <= Conversation(rows)
      && plan.candidates[|plan.candidates| - 1].id < plan.keepMinId
    }

    /** There is something to summarize: more than two messages, and some of them before the keep window. */
    predicate NeedsSummary(all: seq<Row>) { |all| > 2 && !KeepsFrom(estimate, all, 0) }

    /** The synchronous half of a pass: choose what to keep and what to summarize. */
    method SelectForSummary() returns (plan: Option<Plan>)
      requires Valid()
      modifies `rows, `totalTokens
      ensures Valid() && Conversation(rows) == old(Conversation(rows))
      ensures plan.Some? <==> NeedsSummary(Conversation(rows))
      ensures plan.Some? ==> rows == old(rows) && PlanOk(plan.value) && Chosen(Conversation(rows), plan.value)
      ensures plan.None? && |Conversation(rows)| > 2 ==>
                totalTokens == 0 && rows == Where(old(rows), Survives(-1, Conversation(rows)[0].id))
      ensures plan.Some? || |Conversation(rows)| <= 2 ==> rows == old(rows) && totalTokens == old(totalTokens)
    {
      var all := Conversation(rows);
      if |all| <= 2 { return None; }
      var chosen := Choose(all);
      if |chosen.candidates| == 0 {
        PruneTools(chosen.keepMinId);
        totalTokens := 0;
        return None;
      }
      return Some(chosen);
    }

    ghost predicate Chosen(all: seq<Row>, plan: Plan) { ChosenFrom(estimate, maxInputChars, all, plan) }

    method Choose(all: seq<Row>) returns (plan: Plan)
      requires Valid() && all == Conversation(rows) && all != []
      ensures Chosen(all, plan) && ProperPlan(estimate, all, plan) && plan.candidates <= all
    {
      ConversationFacts(rows, StartId(), nextId);
      var k := SelectKeepWindow(estimate, all);
      CandidatesArePrefix(all, k, StartId());
      var allCandidates := Where(all, Between(StartId(), all[k].id));
      var c := 0;
      if |allCandidates| > 0 {
        c := SelectCandidates(allCandidates, maxInputChars);
      }
      plan := Plan(allCandidates[..c], all[k].id);
      PlanIsProper(estimate, maxInputChars, all, k, c, plan);
    }

    /** Drops the tool rows before the window; no message is touched. */
    method PruneTools(keepMinId: nat)
      requires Valid()
      modifies `rows
      ensures Valid() && Conversation(rows) == old(Conversation(rows))
      ensures rows == Where(old(rows), Survives(-1, keepMinId))
      ensures forall x :: x in rows <==> x in old(rows) && !(x.role == Tool && x.id < keepMinId)
    {
      ghost var before := rows;
      rows := Where(rows, Survives(-1, keepMinId));
      WhereMembers(before, Survives(-1, keepMinId));
      WhereAscending(before, Survives(-1, keepMinId));
      WhereAscending(before, InConversation);
      WhereAscending(rows, InConversation);
      WhereMembers(before, InConversation);
      WhereMembers(rows, InConversation);
      AscendingUnique(Conversation(rows), Conversation(before));
    }

    /** The half after the summarizer: all or nothing. */
    method CommitSummary(plan: Plan, summaryText: string, aborted: bool) returns (done: bool)
      requires Valid() && PlanOk(plan)
      modifies `rows, `summary, `totalTokens, `summarized
      ensures Valid()
      ensures done <==> summaryText != "" && !aborted
      ensures !done ==> rows == old(rows) && summary == old(summary)
      ensures !done ==> totalTokens == old(totalTokens) && summarized == old(summarized)
      ensures done ==>
                && summarized == old(summarized) + plan.candidates
                && Conversation(rows) == old(Conversation(rows))[|plan.candidates|..]
                && old(StartId()) < StartId() == plan.candidates[|plan.candidates| - 1].id
                && summary == Some(Summary(CapOnLineBoundary(summaryText, 4_000), StartId()))
                && (forall x :: x in rows <==>
                      x in old(rows) && x.id > StartId() && !(x.role == Tool && x.id < plan.keepMinId))
                && totalTokens == 0
    {
      if summaryText == "" || aborted { return false; }
      var last := plan.candidates[|plan.candidates| - 1].id;
      CommitFacts(plan);
      CommitConserves(plan);
      rows := Where(rows, Survives(last, plan.keepMinId));
      summary := Some(Summary(CapOnLineBoundary(summaryText, MAX_SUMMARY_CHARS), last));
      totalTokens := 0;
      summarized := summarized + plan.candidates;
      done := true;
    }

    lemma CommitFacts(plan: Plan)
      requires Valid() && PlanOk(plan)
      ensures var c := |plan.candidates|;
              var last := plan.candidates[c - 1].id;
              var left := Where(rows, Survives(last, plan.keepMinId));
              && StartId() < last < nextId
              && Ascending(left) && (forall x :: x in left ==> last < x.id < nextId)
              && (forall x :: x in left <==> x in rows && x.id > last && !(x.role == Tool && x.id < plan.keepMinId))
    {
      WhereMembers(rows, Survives(plan.candidates[|plan.candidates| - 1].id, plan.keepMinId));
      var c, all := |plan.candidates|, Conversation(rows);
      WhereMembers(rows, InConversation);
      assert all[c - 1] == plan.candidates[c - 1] && all[c - 1] in all;
      SurvivorsInRange(rows, plan.candidates[c - 1].id, plan.keepMinId);
    }

    lemma CommitConserves(plan: Plan)
      requires Valid() && PlanOk(plan)
      ensures var c := |plan.candidates|;
              var left := Where(rows, Survives(plan.candidates[c - 1].id, plan.keepMinId));
              && Conversation(left) == Conversation(rows)[c..]
              && appended == summarized + plan.candidates + Conversation(left)
    {
      var c, all := |plan.candidates|, Conversation(rows);
      assert all[c - 1] == plan.candidates[c - 1];
      PrunedConversation(rows, c, plan.keepMinId);
      assert all == plan.candidates + all[c..];
    }

    /** Rows stored by others while a pass waits. */
    method Arrive(arrivals: seq<Row>)
      requires Valid()
      modifies `rows, `nextId, `appended
      ensures Valid() && nextId == old(nextId) + |arrivals| && old(rows) <= rows
      ensures appended == old(appended) + Messages(arrivals, old(nextId))
      ensures Conversation(rows) == old(Conversation(rows)) + Messages(arrivals, old(nextId))
    {
      ghost var stored, talk, firstId := appended, Conversation(rows), nextId;
      for i := 0 to |arrivals|
        invariant Valid() && Grown(stored, talk, firstId, arrivals, i) && old(rows) <= rows
      {
        Store(stored, talk, firstId, arrivals, i);
      }
      assert arrivals[..|arrivals|] == arrivals;
    }

    /** The first i arrivals are stored. */
    ghost predicate Grown(stored: seq<Row>, talk: seq<Row>, firstId: nat, arrivals: seq<Row>, i: nat)
      requires i <= |arrivals|
      reads this
    {
      && nextId == firstId + i
      && appended == stored + Messages(arrivals[..i], firstId)
      && Conversation(rows) == talk + Messages(arrivals[..i], firstId)
    }

    method Store(ghost stored: seq<Row>, ghost talk: seq<Row>, ghost firstId: nat, arrivals: seq<Row>, i: nat)
      requires Valid() && i < |arrivals| && Grown(stored, talk, firstId, arrivals, i)
      modifies `rows, `nextId, `appended
      ensures Valid() && Grown(stored, talk, firstId, arrivals, i + 1) && old(rows) <= rows
    {
      ghost var m, x := Messages(arrivals[..i], firstId), Added(firstId + i, arrivals[i].role, arrivals[i].content);
      MessagesSnoc(arrivals, i, firstId);
      Regroup(stored, m, x);
      Regroup(talk, m, x);
      Append(arrivals[i].role, arrivals[i].content);
    }

    /**
     * One pass; rows may arrive while the summarizer runs. The summarizer is shown every candidate, nothing is lost
     * however the pass ends, and it commits exactly when there was something to summarize, the summarizer answered
     * and nobody gave up.
     */
    method CompactThread(outcome: Outcome)
        returns (threw: bool, done: bool, transcript: string, ghost plan: Option<Plan>)
      requires Valid()
      modifies `rows, `nextId, `summary, `totalTokens, `appended, `summarized
      ensures Valid()
      ensures plan.Some? <==> NeedsSummary(old(Conversation(rows)))
      ensures plan.Some? ==> Chosen(old(Conversation(rows)), plan.value) && plan.value.candidates != []
      ensures transcript == if plan.Some? then JoinLines(Lines(plan.value.candidates, maxInputChars)) else ""
      ensures threw <==> plan.Some? && outcome.answer.None?
      ensures done <==> plan.Some? && Commits(outcome)
      ensures appended == old(appended) + if plan.Some? then Messages(outcome.arrivals, old(nextId)) else []
      ensures done ==> Committed(old(summarized), old(StartId()), plan.value, outcome)
      ensures done ==> KeptFrom(old(rows), plan.value.keepMinId)
      ensures !done ==> summarized == old(summarized) && summary == old(summary)
      ensures !done && plan.Some? ==> old(rows) <= rows && old(Conversation(rows)) <= Conversation(rows)
    {
      plan, transcript := None, "";
      var selected := SelectForSummary();
      if selected.None? { return false, false, "", None; }
      plan := selected;
      transcript := SummarizerInput(Conversation(rows), selected.value);
      threw, done := FinishPass(selected.value, outcome);
    }

    /** From the call of the summarizer on. */
    method FinishPass(plan: Plan, outcome: Outcome) returns (threw: bool, done: bool)
      requires Valid() && PlanOk(plan)
      modifies `rows, `nextId, `summary, `totalTokens, `appended, `summarized
      ensures Valid() && appended == old(appended) + Messages(outcome.arrivals, old(nextId))
      ensures threw <==> outcome.answer.None?
      ensures done <==> Commits(outcome)
      ensures done ==> Committed(old(summarized), old(StartId()), plan, outcome)
      ensures done ==> KeptFrom(old(rows), plan.keepMinId)
      ensures !done ==> summarized == old(summarized) && summary == old(summary) && old(rows) <= rows
      ensures !done ==> old(Conversation(rows)) <= Conversation(rows)
    {
      Arrive(outcome.arrivals);
      if outcome.answer.None? { return true, false; }
      threw := false;
      done := CommitSummary(plan, outcome.answer.value, outcome.aborted);
    }

    /** The conversation of the plan, as the summarizer is shown it: every candidate is in the transcript. */
    method SummarizerInput(ghost all: seq<Row>, plan: Plan) returns (transcript: string)
      requires Chosen(all, plan) && plan.candidates != []
      ensures transcript == JoinLines(Lines(plan.candidates, maxInputChars)) && |transcript| <= maxInputChars
    {
      CandidatesFill(estimate, maxInputChars, all, plan);
      ghost var shown;
      transcript, shown := BuildTranscript(plan.candidates, maxInputChars);
      assert plan.candidates[..shown] == plan.candidates;
    }

    /** What a pass that committed leaves behind. */
    ghost predicate Committed(before: seq<Row>, startId: int, plan: Plan, outcome: Outcome)
      requires Commits(outcome)
      reads this
    {
      && plan.candidates != []
      && summarized == before + plan.candidates
      && StartId() == plan.candidates[|plan.candidates| - 1].id > startId
      && summary == Some(Summary(CapOnLineBoundary(outcome.answer.value, 4_000), StartId()))
    }

    /**
     * Up to three attempts; every one of them starts from what is stored then. `attempts` passes were run; the last of
     * them found the rows `at`, and its summarizer was shown the transcript.
     */
    method CompactThreadWithRetry(outcomes: seq<Outcome>, abortedBefore: seq<bool>)
        returns (threw: bool, done: bool, transcript: string, ghost attempts: nat, ghost at: seq<Row>,
                 ghost plan: Option<Plan>)
      requires Valid() && |outcomes| == 3 == |abortedBefore|
      modifies `rows, `nextId, `summary, `totalTokens, `appended, `summarized
      ensures Valid() && old(appended) <= appended
      ensures attempts <= 3 && OthersThrew(outcomes, abortedBefore, attempts)
      ensures attempts == 0 ==> abortedBefore[0] && at == old(rows) == rows
      ensures old(rows) <= at && old(Conversation(rows)) <= Conversation(at)
      ensures Planned(Conversation(at), plan, transcript, attempts)
      ensures threw <==> attempts == 3 && plan.Some? && outcomes[2].answer.None?
      ensures done <==> plan.Some? && Commits(outcomes[attempts - 1])
      ensures done ==> Committed(old(summarized), old(StartId()), plan.value, outcomes[attempts - 1])
      ensures done ==> KeptFrom(at, plan.value.keepMinId)
      ensures !done ==> summarized == old(summarized) && summary == old(summary)
    {
      ghost var was := Progress(rows, appended, Conversation(rows), summarized, summary);
      threw, done, transcript, attempts, at, plan := RunAttempts(outcomes, abortedBefore, was);
    }

    method RunAttempts(outcomes: seq<Outcome>, abortedBefore: seq<bool>, ghost was: Progress)
        returns (threw: bool, done: bool, transcript: string, ghost attempts: nat, ghost at: seq<Row>,
                 ghost plan: Option<Plan>)
      requires |outcomes| == 3 == |abortedBefore| && Retrying(was, rows, None, "", 0) && was.rows == rows
      modifies `rows, `nextId, `summary, `totalTokens, `appended, `summarized
      ensures Over(was, outcomes, abortedBefore, threw, done, transcript, attempts, at, plan)
    {
      threw, done, transcript, attempts, at, plan := true, false, "", 0, rows, None;
      Begins(was, outcomes, abortedBefore);
      for attempt := 0 to 3
        invariant attempts == attempt && threw && !done
        invariant Going(was, outcomes, abortedBefore, transcript, attempt, at, plan)
      {
        threw, done, transcript, attempts, at, plan :=
          TryAgain(outcomes, abortedBefore, attempt, was, at, plan, transcript);
        if !threw { return; }
      }
      SpentIsOver(was, outcomes, abortedBefore, transcript, at, plan);
    }

    /** The body of the loop: given up before it starts, or one more attempt. */
    method TryAgain(outcomes: seq<Outcome>, abortedBefore: seq<bool>, attempt: nat, ghost was: Progress,
                    ghost before: seq<Row>, ghost last: Option<Plan>, shown: string)
        returns (threw: bool, done: bool, transcript: string, ghost attempts: nat, ghost at: seq<Row>,
                 ghost plan: Option<Plan>)
      requires attempt < 3 == |outcomes| == |abortedBefore|
      requires Going(was, outcomes, abortedBefore, shown, attempt, before, last)
      modifies `rows, `nextId, `summary, `totalTokens, `appended, `summarized
      ensures attempts <= 3
      ensures !threw ==> Over(was, outcomes, abortedBefore, false, done, transcript, attempts, at, plan)
      ensures threw ==> attempts == attempt + 1 && !done
                        && Going(was, outcomes, abortedBefore, transcript, attempts, at, plan)
    {
      if abortedBefore[attempt] {
        AbortedIsOver(was, outcomes, abortedBefore, shown, attempt, before, last);
        return false, false, shown, attempt, before, last;
      }
      attempts := attempt + 1;
      threw, done, transcript, at, plan := NextAttempt(outcomes, abortedBefore, attempt, was, before, last, shown);
    }

    /** The attempts are over, and this is how. */
    ghost predicate Over(was: Progress, outcomes: seq<Outcome>, abortedBefore: seq<bool>, threw: bool, done: bool,
                         transcript: string, attempts: nat, at: seq<Row>, plan: Option<Plan>)
      requires |outcomes| == 3 == |abortedBefore|
      reads this
    {
      && attempts <= 3 && (attempts == 0 ==> abortedBefore[0])
      && Ends(was, outcomes, abortedBefore, done, transcript, attempts, at, plan)
      && (threw <==> attempts == 3 && plan.Some? && outcomes[2].answer.None?)
    }

    lemma Begins(was: Progress, outcomes: seq<Outcome>, abortedBefore: seq<bool>)
      requires |outcomes| == |abortedBefore| && Retrying(was, rows, None, "", 0) && was.rows == rows
      ensures Going(was, outcomes, abortedBefore, "", 0, rows, None)
    {
    }

    lemma AbortedIsOver(was: Progress, outcomes: seq<Outcome>, abortedBefore: seq<bool>, transcript: string,
                        attempts: nat, at: seq<Row>, plan: Option<Plan>)
      requires attempts < 3 == |outcomes| == |abortedBefore| && abortedBefore[attempts]
      requires Going(was, outcomes, abortedBefore, transcript, attempts, at, plan)
      ensures Over(was, outcomes, abortedBefore, false, false, transcript, attempts, at, plan)
    {
    }

    lemma SpentIsOver(was: Progress, outcomes: seq<Outcome>, abortedBefore: seq<bool>, transcript: string,
                      at: seq<Row>, plan: Option<Plan>)
      requires 3 == |outcomes| == |abortedBefore|
      requires Going(was, outcomes, abortedBefore, transcript, 3, at, plan)
      ensures Over(was, outcomes, abortedBefore, true, false, transcript, 3, at, plan)
    {
    }

    /** All attempts so far have failed. */
    ghost predicate Pending(was: Progress, outcomes: seq<Outcome>, abortedBefore: seq<bool>, transcript: string,
                            attempts: nat, at: seq<Row>, plan: Option<Plan>)
      requires attempts <= |outcomes| == |abortedBefore|
      reads this
    {
      && Retrying(was, at, plan, transcript, attempts)
      && OthersThrew(outcomes, abortedBefore, attempts) && ThrewBefore(outcomes, attempts)
    }

    /** All of them have failed, and this is what they have come to. */
    ghost predicate Going(was: Progress, outcomes: seq<Outcome>, abortedBefore: seq<bool>, transcript: string,
                          attempts: nat, at: seq<Row>, plan: Option<Plan>)
      requires attempts <= |outcomes| == |abortedBefore|
      reads this
    {
      && Pending(was, outcomes, abortedBefore, transcript, attempts, at, plan)
      && Ends(was, outcomes, abortedBefore, false, transcript, attempts, at, plan)
      && (attempts > 0 ==> plan.Some? && outcomes[attempts - 1].answer.None?)
    }

    method NextAttempt(outcomes: seq<Outcome>, abortedBefore: seq<bool>, attempt: nat, ghost was: Progress,
                       ghost before: seq<Row>, ghost last: Option<Plan>, ghost shown: string)
        returns (threw: bool, done: bool, transcript: string, ghost at: seq<Row>, ghost plan: Option<Plan>)
      requires attempt < 3 == |outcomes| == |abortedBefore| && !abortedBefore[attempt]
      requires Going(was, outcomes, abortedBefore, shown, attempt, before, last)
      modifies `rows, `nextId, `summary, `totalTokens, `appended, `summarized
      ensures !threw ==> Over(was, outcomes, abortedBefore, false, done, transcript, attempt + 1, at, plan)
      ensures threw ==> !done && Going(was, outcomes, abortedBefore, transcript, attempt + 1, at, plan)
    {
      OneMoreAttempt(outcomes, abortedBefore, attempt);
      threw, done, transcript, at, plan := Attempt(outcomes[attempt], was, before, last, shown, attempt);
    }

    /** What the passes so far, all but the last of them failed, have come to. */
    ghost predicate Ends(was: Progress, outcomes: seq<Outcome>, abortedBefore: seq<bool>, done: bool,
                         transcript: string, attempts: nat, at: seq<Row>, plan: Option<Plan>)
      requires attempts <= |outcomes| == |abortedBefore|
      reads this
    {
      && Valid() && was.stored <= appended && OthersThrew(outcomes, abortedBefore, attempts)
      && was.rows <= at && was.talk <= Conversation(at) && (attempts == 0 ==> at == was.rows == rows)
      && Planned(Conversation(at), plan, transcript, attempts)
      && (done <==> plan.Some? && Commits(outcomes[attempts - 1]))
      && (done ==> Committed(was.summarized, StartOf(was.summary), plan.value, outcomes[attempts - 1]))
      && (done ==> KeptFrom(at, plan.value.keepMinId))
      && (!done ==> summarized == was.summarized && summary == was.summary)
    }

    /** The rows of a keep window are still stored. */
    ghost predicate KeptFrom(before: seq<Row>, keepMinId: nat)
      reads this
    {
      forall x :: x in before && x.id >= keepMinId ==> x in rows
    }

    /** One attempt, and what it starts from. */
    method Attempt(outcome: Outcome, ghost was: Progress, ghost before: seq<Row>, ghost last: Option<Plan>,
                   ghost shown: string, ghost attempts: nat)
        returns (threw: bool, done: bool, transcript: string, ghost at: seq<Row>, ghost plan: Option<Plan>)
      requires Retrying(was, before, last, shown, attempts)
      modifies `rows, `nextId, `summary, `totalTokens, `appended, `summarized
      ensures Valid() && was.stored <= appended
      ensures was.rows <= at && was.talk <= Conversation(at)
          && Planned(Conversation(at), plan, transcript, attempts + 1)
      ensures threw <==> plan.Some? && outcome.answer.None?
      ensures done <==> plan.Some? && Commits(outcome)
      ensures done ==> Committed(was.summarized, StartOf(was.summary), plan.value, outcome)
      ensures done ==> KeptFrom(at, plan.value.keepMinId)
      ensures !done ==> summarized == was.summarized && summary == was.summary
      ensures threw ==> Retrying(was, at, plan, transcript, attempts + 1)
    {
      ghost var stored := appended;
      at := rows;
      threw, done, transcript, plan := CompactThread(outcome);
      PrefixTrans(was.stored, stored, appended);
      if threw {
        PrefixTrans(was.rows, at, rows);
        PrefixTrans(was.talk, Conversation(at), Conversation(rows));
      }
    }

    /** Between two attempts: all so far have failed in the summarizer, and only arrivals have been stored. */
    ghost predicate Retrying(was: Progress, at: seq<Row>, plan: Option<Plan>, transcript: string, attempts: nat)
      reads this
    {
      && Valid() && was.stored <= appended
      && was.rows <= at && was.rows <= rows && was.talk <= Conversation(at) && was.talk <= Conversation(rows)
      && Planned(Conversation(at), plan, transcript, attempts) && (attempts > 0 ==> plan.Some?)
      && summarized == was.summarized && summary == was.summary
    }

    /** The plan of the last of the attempts, if it made one, and what its summarizer was shown. */
    ghost predicate Planned(talk: seq<Row>, plan: Option<Plan>, transcript: string, attempts: nat) {
      && (attempts == 0 ==> plan.None?)
      && (attempts > 0 ==> (plan.Some? <==> NeedsSummary(talk)))
      && (plan.Some? ==>
            Chosen(talk, plan.value) && transcript == JoinLines(Lines(plan.value.candidates, maxInputChars)))
    }
  }
}
