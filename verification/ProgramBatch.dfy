/** The batch checkers: draft states, commit or discard, over a whole turn. */
module ProgramBatch {
  import opened Options
  import opened ProgramPolicy

  // ----- the calls accepted so far, and what a batch must meet -----

  /** An accepted call, filed under its program; a local batch files calls under their tool family. */
  datatype Logged<P> = Logged(program: P, entry: Entry)

  /** The accepted calls of one program, in order. */
  function History<P(==)>(log: seq<Logged<P>>, program: P): seq<Entry> {
    if log == [] then [] else
      var last := log[|log| - 1];
      History(log[..|log| - 1], program) + if last.program == program then [last.entry] else []
  }

  lemma {:induction false} HistoryConcat<P>(a: seq<Logged<P>>, b: seq<Logged<P>>, program: P)
    ensures History(a + b, program) == History(a, program) + History(b, program)
  {
    if b == [] {
      assert a + b == a;
    } else {
      assert (a + b)[..|a + b| - 1] == a + b[..|b| - 1];
      HistoryConcat(a, b[..|b| - 1], program);
    }
  }

  ghost predicate AllCoherent<P(!new)>(log: seq<Logged<P>>) {
    forall program :: Coherent(History(log, program))
  }

  lemma AllCoherentPrefix<P(!new)>(a: seq<Logged<P>>, b: seq<Logged<P>>)
    requires AllCoherent(a + b)
    ensures AllCoherent(a)
  {
    forall program ensures Coherent(History(a, program)) {
      HistoryConcat(a, b, program);
      var h := History(a + b, program);
      CoherentPrefix(h, |History(a, program)|);
      assert h[..|History(a, program)|] == History(a, program);
    }
  }

  ghost predicate AllProper<P>(log: seq<Logged<P>>) {
    forall i :: 0 <= i < |log| ==> ProperPolicy(log[i].entry.policy)
  }

  lemma {:induction false} HistoryProper<P>(log: seq<Logged<P>>, program: P)
    requires AllProper(log)
    ensures Proper(History(log, program))
  {
    if log != [] { HistoryProper(log[..|log| - 1], program); }
  }

  // ----- calls -----

  datatype Caller = Direct | Malformed | Program(id: string)

  /** What parsing the arguments and the family's own validator make of a call. */
  datatype Arguments = Unparsable | Refused | Fine(policy: Policy)

  datatype Call = Call(tool: Tool, caller: Caller, arguments: Arguments)

  predicate Eligible(c: Call, enabled: bool, known: set<string>) {
    c.caller.Program? ==> enabled && c.caller.id in known && !c.tool.Unlisted? && c.arguments.Fine?
  }

  /** The log entries of the programmatic calls of a batch. */
  function Programmatic(calls: seq<Call>): seq<Logged<string>> {
    if calls == [] then [] else
      var c := calls[|calls| - 1];
      Programmatic(calls[..|calls| - 1]) +
      if c.caller.Program? && c.arguments.Fine? then [Logged(c.caller.id, Entry(c.tool, c.arguments.policy))] else []
  }

  function CountProgrammatic(calls: seq<Call>): nat {
    if calls == [] then 0 else
      CountProgrammatic(calls[..|calls| - 1]) + if calls[|calls| - 1].caller.Program? then 1 else 0
  }

  ghost predicate ProperCalls(calls: seq<Call>) {
    forall i :: 0 <= i < |calls| && calls[i].arguments.Fine? ==> ProperPolicy(calls[i].arguments.policy)
  }

  predicate AllEligible(calls: seq<Call>, enabled: bool, known: set<string>) {
    forall i :: 0 <= i < |calls| ==> Eligible(calls[i], enabled, known)
  }

  /** The declarative batch rule: budgets, eligibility, and every program still coherent afterwards. */
  ghost predicate Acceptable(log: seq<Logged<string>>, calls: seq<Call>, enabled: bool, known: set<string>) {
    && CountProgrammatic(calls) <= 4 && |log| + CountProgrammatic(calls) <= 4
    && (forall i :: 0 <= i < |calls| && calls[i].caller.Program? ==>
          enabled && calls[i].caller.id in known && !calls[i].tool.Unlisted? && calls[i].arguments.Fine?)
    && AllCoherent(log + Programmatic(calls))
  }

  lemma {:induction false} ProgrammaticConcat(a: seq<Call>, b: seq<Call>)
    ensures Programmatic(a + b) == Programmatic(a) + Programmatic(b)
  {
    if b == [] {
      assert a + b == a;
    } else {
      assert (a + b)[..|a + b| - 1] == a + b[..|b| - 1];
      ProgrammaticConcat(a, b[..|b| - 1]);
    }
  }

  lemma {:induction false} ProgrammaticCount(calls: seq<Call>, enabled: bool, known: set<string>)
    requires forall i :: 0 <= i < |calls| ==> Eligible(calls[i], enabled, known)
    ensures |Programmatic(calls)| == CountProgrammatic(calls)
  {
    if calls != [] { ProgrammaticCount(calls[..|calls| - 1], enabled, known); }
  }

  // ----- program states -----

  class ProgramState {
    const toolName: Tool
    var calls: nat
    var workUnits: nat
    var seenKeys: set<string>
    var marketTypeIdsKey: Option<string>
    var comparisonKey: Option<string>
    var killWindows: seq<Window>

    function View(): Summary
      reads this
    {
      Summary(toolName, calls, workUnits, seenKeys, marketTypeIdsKey, comparisonKey, killWindows)
    }

    constructor (s: Summary)
      ensures View() == s
    {
      toolName, calls, workUnits, seenKeys := s.tool, s.calls, s.workUnits, s.seenKeys;
      marketTypeIdsKey, comparisonKey, killWindows := s.marketTypeIdsKey, s.comparisonKey, s.killWindows;
    }

    method Absorb(p: Policy)
      modifies this
      ensures View() == Absorbed(old(View()), p)
    {
      calls := calls + 1;
      workUnits := workUnits + p.workUnits;
      seenKeys := seenKeys + {p.key};
      if marketTypeIdsKey.None? { marketTypeIdsKey := p.marketTypeIdsKey; }
      if comparisonKey.None? { comparisonKey := p.comparisonKey; }
      if p.killWindow.Some? { killWindows := killWindows + [p.killWindow.value]; }
    }
  }

  type States = map<string, ProgramState>

  ghost predicate NoSharing(states: States) {
    forall a, b :: a in states && b in states && a != b ==> states[a] != states[b]
  }

  type Views<P> = map<P, Summary>

  ghost function ViewOf(states: States): Views<string>
    reads states.Values
  {
    map p | p in states :: states[p].View()
  }

  /** What the state of a program should hold after the calls of the log. */
  ghost predicate SummaryOk<P>(log: seq<Logged<P>>, program: P, s: Summary) {
    var h := History(log, program);
    h != [] && s == StateOf(h[0].tool, h)
  }

  ghost predicate ViewsOk<P(!new)>(views: Views<P>, log: seq<Logged<P>>) {
    && (forall program :: program in views ==> SummaryOk(log, program, views[program]))
    && (forall program :: program !in views ==> History(log, program) == [])
  }

  lemma StateSnoc(tool: Tool, h: seq<Entry>, e: Entry)
    requires e.tool == tool && (h != [] ==> h[0].tool == tool)
    ensures (h + [e])[0].tool == tool && StateOf(tool, h + [e]) == Absorbed(StateOf(tool, h), e.policy)
  {
    assert (h + [e])[..|h|] == h;
  }

  function Found<P(==)>(views: Views<P>, program: P, tool: Tool): Summary {
    if program in views then views[program] else Blank(tool)
  }

  /** Taking one more call into the state of its program keeps all states right. */
  lemma ViewsGrow<P(!new)>(views: Views<P>, log: seq<Logged<P>>, program: P, tool: Tool, p: Policy)
    requires ViewsOk(views, log) && Found(views, program, tool).tool == tool
    ensures ViewsOk(views[program := Absorbed(Found(views, program, tool), p)], log + [Logged(program, Entry(tool, p))])
  {
    var x, h := Logged(program, Entry(tool, p)), History(log, program);
    if h != [] { StateCounts(h[0].tool, h); }
    StateSnoc(tool, h, x.entry);
    forall q ensures History(log + [x], q) == if q == program then h + [x.entry] else History(log, q) {
    }
  }

  /** Everything the states of a turn promise. */
  ghost predicate TurnOk<P(!new)>(views: Views<P>, log: seq<Logged<P>>) {
    ViewsOk(views, log) && AllCoherent(log) && AllProper(log)
  }

  /** All checks on one call, with the states after it. */
  function Judge(views: Views<string>, c: Call, enabled: bool, known: set<string>): Option<Views<string>> {
    if !c.caller.Program? then Some(views)
    else if !Eligible(c, enabled, known) then None
    else
      var s, p := Found(views, c.caller.id, c.tool), c.arguments.policy;
      if Passes(s, c.tool, p) then Some(views[c.caller.id := Absorbed(s, p)]) else None
  }

  function JudgeAll(views: Views<string>, calls: seq<Call>, enabled: bool, known: set<string>): Option<Views<string>> {
    if calls == [] then Some(views) else
      var before := JudgeAll(views, calls[..|calls| - 1], enabled, known);
      if before.None? then None else Judge(before.value, calls[|calls| - 1], enabled, known)
  }

  /** The checks on one call decide whether the log stays coherent. */
  lemma PassesIsCoherence<P(!new)>(log: seq<Logged<P>>, program: P, tool: Tool, p: Policy, s: Summary)
    requires AllCoherent(log) && AllProper(log) && ProperPolicy(p)
    requires SummaryOk(log, program, s) || (History(log, program) == [] && s == Blank(tool))
    ensures Passes(s, tool, p) <==> AllCoherent(log + [Logged(program, Entry(tool, p))])
  {
    var h, x := History(log, program), Logged(program, Entry(tool, p));
    HistoryProper(log, program);
    forall q ensures History(log + [x], q) == if q == program then h + [x.entry] else History(log, q) {
    }
    assert AllCoherent(log + [x]) <==> Coherent(h + [x.entry]) by {
      if Coherent(h + [x.entry]) {
        forall q ensures Coherent(History(log + [x], q)) {
          if q != program { assert Coherent(History(log, q)); }
        }
      }
      if AllCoherent(log + [x]) { assert Coherent(History(log + [x], program)); }
    }
    assert Coherent(h);
    if h != [] {
      StateCounts(h[0].tool, h);
      if h[0].tool != tool {
        assert (h + [x.entry])[|h|].tool == tool && (h + [x.entry])[0].tool == h[0].tool;
      }
    }
    if h == [] || h[0].tool == tool { PassesIffCoherent(tool, h, p); }
  }

  lemma JudgeDecides(views: Views<string>, log: seq<Logged<string>>, c: Call, enabled: bool, known: set<string>)
    requires TurnOk(views, log) && (c.arguments.Fine? ==> ProperPolicy(c.arguments.policy))
    ensures var after, longer := Judge(views, c, enabled, known), log + Programmatic([c]);
            && (after.Some? <==> Eligible(c, enabled, known) && AllCoherent(longer))
            && (after.Some? ==> TurnOk(after.value, longer))
  {
    assert [c][..0] == [];
    assert log + [] == log;
    if c.caller.Program? && Eligible(c, enabled, known) {
      var p := c.arguments.policy;
      assert Programmatic([c]) == [Logged(c.caller.id, Entry(c.tool, p))];
      PassesIsCoherence(log, c.caller.id, c.tool, p, Found(views, c.caller.id, c.tool));
      if Passes(Found(views, c.caller.id, c.tool), c.tool, p) {
        ViewsGrow(views, log, c.caller.id, c.tool, p);
      }
    }
  }

  /** Main result on batches: checking call by call accepts exactly the batches that leave every program coherent. */
  lemma {:induction false} JudgeAllDecides(views: Views<string>, log: seq<Logged<string>>, calls: seq<Call>,
      enabled: bool, known: set<string>)
    requires TurnOk(views, log) && ProperCalls(calls)
    ensures Decides(JudgeAll(views, calls, enabled, known), log + Programmatic(calls), calls, enabled, known)
  {
    if calls == [] {
      assert log + Programmatic(calls) == log;
    } else {
      var n := |calls| - 1;
      var init, before := calls[..n], JudgeAll(views, calls[..n], enabled, known);
      JudgeAllDecides(views, log, init, enabled, known);
      assert calls == init + [calls[n]];
      ProgrammaticConcat(init, [calls[n]]);
      assert log + Programmatic(calls) == log + Programmatic(init) + Programmatic([calls[n]]);
      NextDecides(before, log + Programmatic(init), init, calls[n], enabled, known);
    }
  }

  /** The states judged are there exactly when the batch is acceptable, and they are right. */
  ghost predicate Decides(after: Option<Views<string>>, longer: seq<Logged<string>>, calls: seq<Call>, enabled: bool,
      known: set<string>)
  {
    && (after.Some? <==> AllEligible(calls, enabled, known) && AllCoherent(longer))
    && (after.Some? ==> TurnOk(after.value, longer))
  }

  lemma NextDecides(before: Option<Views<string>>, log: seq<Logged<string>>, init: seq<Call>, c: Call, enabled: bool,
      known: set<string>)
    requires Decides(before, log, init, enabled, known) && (c.arguments.Fine? ==> ProperPolicy(c.arguments.policy))
    ensures Decides(if before.None? then None else Judge(before.value, c, enabled, known), log + Programmatic([c]),
                    init + [c], enabled, known)
  {
    var all := init + [c];
    assert all[|init|] == c && forall i :: 0 <= i < |init| ==> all[i] == init[i];
    if before.Some? {
      JudgeDecides(before.value, log, c, enabled, known);
    } else if AllCoherent(log + Programmatic([c])) {
      AllCoherentPrefix(log, Programmatic([c]));
    }
  }

  lemma {:induction false} JudgeAllPrefix(views: Views<string>, calls: seq<Call>, n: nat, enabled: bool,
      known: set<string>)
    requires n <= |calls| && JudgeAll(views, calls[..n], enabled, known).None?
    ensures JudgeAll(views, calls, enabled, known).None?
  {
    if n == |calls| {
      assert calls[..n] == calls;
    } else {
      assert calls[..|calls| - 1][..n] == calls[..n];
      JudgeAllPrefix(views, calls[..|calls| - 1], n, enabled, known);
    }
  }

  /** `cloneProgrammaticStates`: fresh objects with the same contents. */
  method CloneStates(states: States) returns (draft: States)
    ensures NoSharing(draft) && ViewOf(draft) == ViewOf(states)
    ensures forall p :: p in draft ==> fresh(draft[p])
  {
    draft := map[];
    var todo := states.Keys;
    while todo != {}
      invariant todo <= states.Keys && draft.Keys == states.Keys - todo && NoSharing(draft)
      invariant forall p :: p in draft ==> fresh(draft[p]) && draft[p].View() == states[p].View()
      decreases todo
    {
      var p :| p in todo;
      var copy := new ProgramState(states[p].View());
      draft := draft[p := copy];
      todo := todo - {p};
    }
  }

  /** Looks up or creates the state of a program and takes a call into it. */
  method AbsorbInto(states: States, program: string, tool: Tool, p: Policy) returns (after: States)
    requires NoSharing(states)
    modifies states.Values
    ensures NoSharing(after)
    ensures ViewOf(after) == old(ViewOf(states))[program := Absorbed(Found(old(ViewOf(states)), program, tool), p)]
    ensures forall q :: q in after ==> fresh(after[q]) || after[q] in states.Values
  {
    var state: ProgramState;
    if program in states {
      state := states[program];
    } else {
      state := new ProgramState(Blank(tool));
    }
    ghost var before := ViewOf(states);
    state.Absorb(p);
    after := states[program := state];
    assert forall q :: q in states && q != program ==> after[q] == states[q] != state;
    assert forall q :: q in states && q != program ==> after[q].View() == before[q];
  }

  // ----- the programmatic batch -----

  /** `rejected[i]` says call i was refused; `normalized[i]` holds its checked arguments. */
  datatype Verdict =
    | Thrown
    | Checked(rejected: seq<bool>, normalized: seq<Option<string>>, reserved: nat)

  function AsRejected(calls: seq<Call>): seq<bool> {
    seq(|calls|, i requires 0 <= i < |calls| => calls[i].caller.Program?)
  }

  /** Reads the caller of every call; one malformed caller fails the whole response. */
  method CollectCallers(calls: seq<Call>) returns (malformed: bool, count: nat)
    ensures malformed <==> exists i :: 0 <= i < |calls| && calls[i].caller.Malformed?
    ensures !malformed ==> count == CountProgrammatic(calls)
  {
    count := 0;
    for i := 0 to |calls|
      invariant forall k :: 0 <= k < i ==> !calls[k].caller.Malformed?
      invariant count == CountProgrammatic(calls[..i])
    {
      if calls[i].caller.Malformed? { return true, count; }
      assert calls[..i + 1][..i] == calls[..i];
      if calls[i].caller.Program? { count := count + 1; }
    }
    assert calls[..|calls|] == calls;
    malformed := false;
  }

  function MinCalls(tool: Tool): nat { if tool.CompareWormholeTypes? then 1 else 2 }

  /** A program may end with as many calls as its family asks for, or with none if its calls were refused. */
  predicate Complete(h: seq<Entry>, refused: bool) {
    if h == [] then refused else MinCalls(h[0].tool) <= |h| <= MaxCalls(h[0].tool)
  }

  ghost predicate AllComplete(log: seq<Logged<string>>, known: set<string>, refused: set<string>) {
    forall id :: id in known ==> Complete(History(log, id), id in refused)
  }

  class ProgramTable {
    var states: States
    var callsExecuted: nat
    ghost var log: seq<Logged<string>>    // every call accepted this turn

    ghost predicate Valid()
      reads this, states.Values
    {
      && callsExecuted == |log| <= 4
      && NoSharing(states) && TurnOk(ViewOf(states), log)
    }

    constructor ()
      ensures Valid() && log == []
    {
      states, callsExecuted, log := map[], 0, [];
    }

    /** Accepts a batch exactly when it is acceptable; otherwise leaves every program as it was. */
    method ValidateProgrammaticBatch(calls: seq<Call>, enabled: bool, known: set<string>) returns (v: Verdict)
      requires Valid() && ProperCalls(calls)
      modifies this
      ensures Valid()
      ensures v.Thrown? <==> exists i :: 0 <= i < |calls| && calls[i].caller.Malformed?
      ensures v.Checked? ==> |v.rejected| == |calls| && OwnArguments(calls, v.normalized)
      ensures v.Checked? && Acceptable(old(log), calls, enabled, known) ==>
                && log == old(log) + Programmatic(calls)
                && v.reserved == CountProgrammatic(calls)
                && (forall i :: 0 <= i < |calls| ==> !v.rejected[i])
                && NormalizedUpTo(calls, v.normalized, |calls|)
      ensures v.Checked? && !Acceptable(old(log), calls, enabled, known) ==>
                v.rejected == AsRejected(calls) && v.reserved == 0
      ensures !(v.Checked? && Acceptable(old(log), calls, enabled, known)) ==>
                log == old(log) && states == old(states) && ViewOf(states) == old(ViewOf(states))
    {
      var malformed, count := CollectCallers(calls);
      if malformed { return Thrown; }
      var none := seq(|calls|, _ => None);
      if count > MAX_CALLS_PER_BATCH || callsExecuted + count > MAX_CALLS_PER_TURN {
        return Checked(AsRejected(calls), none, 0);
      }
      JudgeAllDecides(ViewOf(states), log, calls, enabled, known);
      if AllEligible(calls, enabled, known) { ProgrammaticCount(calls, enabled, known); }
      v := CommitOrDiscard(calls, count, enabled, known);
    }

    /** The check made before a turn may end reads the states alone, and decides about the accepted calls. */
    method ValidateCompletedProgramShapes(known: set<string>, refused: set<string>) returns (ok: bool)
      requires Valid()
      ensures ok <==> AllComplete(log, known, refused)
    {
      var todo := known;
      while todo != {}
        invariant todo <= known
        invariant forall id :: id in known - todo ==> Complete(History(log, id), id in refused)
        decreases todo
      {
        var id :| id in todo;
        StateTells(id);
        if id !in states {
          if id !in refused { return false; }
        } else {
          var state := states[id];
          var minimum := if state.toolName.CompareWormholeTypes? then 1 else 2;
          if state.calls < minimum { return false; }
          if state.toolName.CountUniverseObjects? && state.calls != 2 { return false; }
        }
        todo := todo - {id};
      }
      ok := true;
    }

    /** What the state of one program tells about its accepted calls. */
    lemma StateTells(id: string)
      requires Valid()
      ensures var h := History(log, id);
              if id in states
              then h != [] && states[id].toolName == h[0].tool && states[id].calls == |h| <= MaxCalls(h[0].tool)
              else h == []
    {
      var h := History(log, id);
      assert Coherent(h);
      if id in states {
        assert ViewOf(states)[id] == states[id].View();
        assert SummaryOk(log, id, states[id].View());
        StateCounts(h[0].tool, h);
      } else {
        assert id !in ViewOf(states);
      }
    }

    /** All calls are checked on copies of the states. */
    method CheckOnDrafts(calls: seq<Call>, enabled: bool, known: set<string>)
        returns (ok: bool, draft: States, normalized: seq<Option<string>>)
      requires NoSharing(states)
      ensures OwnArguments(calls, normalized)
      ensures var after := JudgeAll(ViewOf(states), calls, enabled, known);
              ok == after.Some?
              && (ok ==> NoSharing(draft) && ViewOf(draft) == after.value && NormalizedUpTo(calls, normalized, |calls|))
    {
      draft := CloneStates(states);
      ok, draft, normalized := CheckCalls(calls, enabled, known, draft);
    }

    method CommitOrDiscard(calls: seq<Call>, count: nat, enabled: bool, known: set<string>) returns (v: Verdict)
      requires NoSharing(states)
      modifies this
      ensures v.Checked? && |v.rejected| == |calls| && OwnArguments(calls, v.normalized)
      ensures NoSharing(states)
      ensures var after := JudgeAll(old(ViewOf(states)), calls, enabled, known);
              if after.Some? then
                && ViewOf(states) == after.value && callsExecuted == old(callsExecuted) + count
                && log == old(log) + Programmatic(calls) && v.reserved == count
                && (forall i :: 0 <= i < |calls| ==> !v.rejected[i])
                && NormalizedUpTo(calls, v.normalized, |calls|)
              else
                && states == old(states) && ViewOf(states) == old(ViewOf(states))
                && callsExecuted == old(callsExecuted) && log == old(log)
                && v.rejected == AsRejected(calls) && v.reserved == 0
    {
      var ok, draft, normalized := CheckOnDrafts(calls, enabled, known);
      if !ok { return Checked(AsRejected(calls), normalized, 0); }
      states := draft;
      callsExecuted := callsExecuted + count;
      log := log + Programmatic(calls);
      return Checked(seq(|calls|, _ => false), normalized, count);
    }
  }

  /** Whatever becomes of the batch, a call has its own checked arguments or none. */
  ghost predicate OwnArguments(calls: seq<Call>, normalized: seq<Option<string>>) {
    && |normalized| == |calls|
    && forall i :: 0 <= i < |calls| && normalized[i].Some? ==>
         calls[i].caller.Program? && calls[i].arguments.Fine? && normalized[i].value == calls[i].arguments.policy.args
  }

  lemma NormalizedAreOwn(calls: seq<Call>, normalized: seq<Option<string>>, n: nat)
    requires |normalized| == n <= |calls| && NormalizedUpTo(calls, normalized, n)
    ensures OwnArguments(calls, normalized + seq(|calls| - n, _ => None))
  {
  }

  /** The checked arguments of the first n calls. */
  ghost predicate NormalizedUpTo(calls: seq<Call>, normalized: seq<Option<string>>, n: nat) {
    && n <= |normalized| && n <= |calls|
    && forall i :: 0 <= i < n ==>
         if calls[i].caller.Program? then calls[i].arguments.Fine?
             && normalized[i] == Some(calls[i].arguments.policy.args)
         else normalized[i] == None
  }

  /** Runs the checks call by call on draft states. */
  method CheckCalls(calls: seq<Call>, enabled: bool, known: set<string>, draft: States)
      returns (ok: bool, after: States, normalized: seq<Option<string>>)
    requires NoSharing(draft)
    modifies draft.Values
    ensures ok <==> JudgeAll(old(ViewOf(draft)), calls, enabled, known).Some?
    ensures ok ==> NoSharing(after) && JudgeAll(old(ViewOf(draft)), calls, enabled, known) == Some(ViewOf(after))
    ensures ok ==> NormalizedUpTo(calls, normalized, |calls|)
    ensures forall p :: p in after ==> fresh(after[p]) || after[p] in draft.Values
    ensures OwnArguments(calls, normalized)
  {
    after := draft;
    normalized := [];
    ghost var start := ViewOf(draft);
    for i := 0 to |calls|
      invariant NoSharing(after) && JudgeAll(start, calls[..i], enabled, known) == Some(ViewOf(after))
      invariant forall p :: p in after ==> fresh(after[p]) || after[p] in draft.Values
      invariant |normalized| == i && NormalizedUpTo(calls, normalized, i)
    {
      var call := calls[i];
      assert calls[..i + 1][..i] == calls[..i];
      if call.caller.Program? {
        ok, after := CheckOne(call, enabled, known, after);
        if !ok {
          JudgeAllPrefix(start, calls, i + 1, enabled, known);
          NormalizedAreOwn(calls, normalized, i);
          normalized := normalized + seq(|calls| - i, _ => None);
          return;
        }
        normalized := normalized + [Some(call.arguments.policy.args)];
      } else {
        normalized := normalized + [None];
      }
    }
    assert calls[..|calls|] == calls;
    NormalizedAreOwn(calls, normalized, |calls|);
    assert normalized + seq(0, _ => None) == normalized;
    ok := true;
  }

  method CheckOne(call: Call, enabled: bool, known: set<string>, states: States) returns (ok: bool, after: States)
    requires call.caller.Program? && NoSharing(states)
    modifies states.Values
    ensures ok <==> Judge(old(ViewOf(states)), call, enabled, known).Some?
    ensures ok ==> call.arguments.Fine? && NoSharing(after)
                   && Judge(old(ViewOf(states)), call, enabled, known) == Some(ViewOf(after))
    ensures forall q :: q in after ==> fresh(after[q]) || after[q] in states.Values
  {
    var id := call.caller.id;
    if !enabled || id !in known || call.tool.Unlisted? || !call.arguments.Fine? { return false, states; }
    var p := call.arguments.policy;
    var s := if id in states then states[id].View() else Blank(call.tool);
    assert s == Found(ViewOf(states), id, call.tool);
    if !Passes(s, call.tool, p) { return false, states; }
    after := AbsorbInto(states, id, call.tool, p);
    ok := true;
  }

  // ----- the local parallel batch -----

  /** One entry of `args.calls`; Misshapen covers every structural fault that one entry can have by itself. */
  datatype Raw = Misshapen | RawCall(id: string, tool: Tool, arguments: Arguments)

  datatype LocalError =
    | InvalidBatch | BudgetExceeded | InvalidArguments | ArgumentsRejected | DuplicateOperation | Incoherent

  datatype LocalResult = Ok(calls: seq<Raw>) | Err(error: LocalError)

  predicate WellShaped(r: Raw) {
    r.RawCall? && !r.tool.Unlisted? && r.arguments.Fine?
  }

  predicate AllShaped(raws: seq<Raw>) { forall i :: 0 <= i < |raws| ==> WellShaped(raws[i]) }

  predicate DistinctIds(raws: seq<Raw>) {
    forall i, j :: 0 <= i < j < |raws| && raws[i].RawCall? && raws[j].RawCall? ==> raws[i].id != raws[j].id
  }

  function AsLocal(r: Raw): Logged<Tool>
    requires WellShaped(r)
  {
    Logged(r.tool, Entry(r.tool, r.arguments.policy))
  }

  function Locals(raws: seq<Raw>): seq<Logged<Tool>>
    requires forall i :: 0 <= i < |raws| ==> WellShaped(raws[i])
  {
    seq(|raws|, i requires 0 <= i < |raws| => AsLocal(raws[i]))
  }

  /** The declarative rule: within budget, well shaped, distinct ids, and every family a coherent program. */
  ghost predicate LocallyAcceptable(raws: seq<Raw>, alreadyExecuted: nat) {
    && 1 <= |raws| <= 4 && alreadyExecuted + |raws| <= 4
    && (forall i :: 0 <= i < |raws| ==> WellShaped(raws[i]))
    && DistinctIds(raws)
    && AllCoherent(Locals(raws))
  }

  /** The checks of the local batch, which has no per-program cap of its own and remembers tool and key together. */
  predicate LocalPasses(s: Summary, tool: Tool, p: Policy) {
    && s.calls + 1 <= MaxCalls(tool)
    && WithinWork(tool, s.workUnits + p.workUnits)
    && !Clash(p.marketTypeIdsKey, s.marketTypeIdsKey)
    && !Clash(p.comparisonKey, s.comparisonKey)
    && !WindowClash(s.killWindows, p.killWindow)
  }

  lemma {:induction false} FamilySize(log: seq<Logged<Tool>>, tool: Tool)
    ensures |History(log, tool)| <= |log|
    ensures forall i :: 0 <= i < |log| && log[i].program == tool ==> log[i].entry in History(log, tool)
    ensures forall e :: e in History(log, tool) ==> Logged(tool, e) in log
  {
    if log != [] {
      FamilySize(log[..|log| - 1], tool);
    }
  }

  ghost predicate OperationsSeen(seen: set<(Tool, string)>, log: seq<Logged<Tool>>) {
    forall t, k :: (t, k) in seen <==> exists i :: 0 <= i < |log| && log[i].program == t && log[i].entry.policy.key == k
  }

  lemma OperationsGrow(seen: set<(Tool, string)>, log: seq<Logged<Tool>>, x: Logged<Tool>)
    requires OperationsSeen(seen, log)
    ensures OperationsSeen(seen + {(x.program, x.entry.policy.key)}, log + [x])
  {
    var longer := log + [x];
    assert longer[|log|] == x;
    forall t, k ensures (t, k) in seen + {(x.program, x.entry.policy.key)} <==>
                        exists i :: 0 <= i < |longer| && longer[i].program == t && longer[i].entry.policy.key == k {
      if (t, k) in seen {
        var i :| 0 <= i < |log| && log[i].program == t && log[i].entry.policy.key == k;
        assert longer[i] == log[i];
      }
    }
  }

  /** The next call of a local batch keeps its family coherent exactly when its checks pass. */
  lemma LocalStep(views: Views<Tool>, log: seq<Logged<Tool>>, seen: set<(Tool, string)>, tool: Tool, p: Policy)
    requires TurnOk(views, log) && ProperPolicy(p) && |log| < 4
    requires forall i :: 0 <= i < |log| ==> log[i].program == log[i].entry.tool
    requires OperationsSeen(seen, log)
    ensures var s, x := Found(views, tool, tool), Logged(tool, Entry(tool, p));
            && ((tool, p.key) !in seen && LocalPasses(s, tool, p) <==> AllCoherent(log + [x]))
            && (AllCoherent(log + [x]) ==> TurnOk(views[tool := Absorbed(s, p)], log + [x]))
  {
    var h, s := History(log, tool), Found(views, tool, tool);
    FamilySize(log, tool);
    if h != [] {
      StateCounts(h[0].tool, h);
      assert h[0] in h;
    }
    assert s.tool == tool;
    assert p.key in s.seenKeys <==> (tool, p.key) in seen by { KeysSeen(log, tool, s, p.key); }
    PassesIsCoherence(log, tool, tool, p, s);
    if Passes(s, tool, p) { ViewsGrow(views, log, tool, tool, p); }
  }

  lemma KeysSeen(log: seq<Logged<Tool>>, tool: Tool, s: Summary, key: string)
    requires SummaryOk(log, tool, s) || (History(log, tool) == [] && s == Blank(tool))
    ensures key in s.seenKeys
       <==> exists i :: 0 <= i < |log| && log[i].program == tool && log[i].entry.policy.key == key
  {
    var h := History(log, tool);
    FamilySize(log, tool);
    if h != [] { StateCounts(h[0].tool, h); }
    if key in s.seenKeys {
      var j :| 0 <= j < |h| && h[j].policy.key == key;
      assert Logged(tool, h[j]) in log;
    }
    if i :| 0 <= i < |log| && log[i].program == tool && log[i].entry.policy.key == key {
      assert log[i].entry in h;
      var j :| 0 <= j < |h| && h[j] == log[i].entry;
      assert h[j].policy.key == key;
    }
  }

  class LocalBatchState {
    var callsExecuted: nat

    ghost predicate Valid()
      reads this
    {
      callsExecuted <= 4
    }

    constructor ()
      ensures Valid() && callsExecuted == 0
    {
      callsExecuted := 0;
    }

    /** The accepting half of executeLocalParallelBatch: check the batch, then charge it to the turn. */
    method Admit(raws: seq<Raw>) returns (r: LocalResult)
      requires Valid() && forall i :: 0 <= i < |raws| && raws[i].RawCall? && raws[i].arguments.Fine? ==>
          ProperPolicy(raws[i].arguments.policy)
      modifies this
      ensures Valid()
      ensures r.Ok? <==> LocallyAcceptable(raws, old(callsExecuted))
      ensures r.Ok? ==> r.calls == raws && callsExecuted == old(callsExecuted) + |raws|
      ensures r.Err? ==> callsExecuted == old(callsExecuted)
    {
      r := ValidateLocalParallelBatch(raws, callsExecuted);
      if r.Ok? { callsExecuted := callsExecuted + |r.calls|; }
    }
  }

  method ValidateLocalParallelBatch(raws: seq<Raw>, alreadyExecuted: nat) returns (r: LocalResult)
    requires forall i :: 0 <= i < |raws| && raws[i].RawCall? && raws[i].arguments.Fine? ==>
        ProperPolicy(raws[i].arguments.policy)
    ensures r.Ok? <==> LocallyAcceptable(raws, alreadyExecuted)
    ensures r.Ok? ==> r.calls == raws
    ensures r == Err(BudgetExceeded) <==> !(1 <= |raws| <= 4 && alreadyExecuted + |raws| <= 4)
    ensures r.Err? && r.error != BudgetExceeded ==> exists i :: 0 <= i < |raws| && FaultAt(raws, i, r.error)
  {
    if |raws| < 1 || |raws| > 4 || alreadyExecuted + |raws| > 4 { return Err(BudgetExceeded); }
    var ids: set<string> := {};
    var seenOperations: set<(Tool, string)> := {};
    var familyStates: Views<Tool> := map[];
    for i := 0 to |raws|
      invariant LocalUpTo(raws, i, ids, seenOperations, familyStates)
    {
      RawFaultIs(raws, i, ids, seenOperations, familyStates);
      var raw := raws[i];
      var fault := RawFault(raw, ids, seenOperations, familyStates);
      if fault.Some? { return Err(fault.value); }
      var key := raw.arguments.policy.key;
      familyStates := familyStates[raw.tool := Absorbed(Found(familyStates, raw.tool, raw.tool), raw.arguments.policy)];
      ids := ids + {raw.id};
      seenOperations := seenOperations + {(raw.tool, key)};
    }
    assert raws[..|raws|] == raws;
    return Ok(raws);
  }

  /** The first faulty entry, and what it is refused for: shape, arguments, repetition and coherence in this order. */
  ghost predicate FaultAt(raws: seq<Raw>, i: nat, error: LocalError)
    requires i < |raws|
  {
    && AllShaped(raws[..i]) && DistinctIds(raws[..i]) && AllCoherent(Locals(raws[..i]))
    && var raw := raws[i];
       var misshapen := raw.Misshapen? || raw.tool.Unlisted?
                        || exists k :: 0 <= k < i && raws[k].RawCall? && raws[k].id == raw.id;
       match error
       case InvalidBatch => misshapen
       case InvalidArguments => !misshapen && raw.arguments.Unparsable?
       case ArgumentsRejected => !misshapen && raw.arguments.Refused?
       case DuplicateOperation => !misshapen && raw.arguments.Fine? && Repeats(raws, i)
       case Incoherent =>
         !misshapen && raw.arguments.Fine? && !Repeats(raws, i) && !AllCoherent(Locals(raws[..i]) + [AsLocal(raw)])
       case BudgetExceeded => false
  }

  /** An earlier entry of the same tool has the same key. */
  predicate Repeats(raws: seq<Raw>, i: nat)
    requires i < |raws| && AllShaped(raws[..i]) && WellShaped(raws[i])
  {
    exists k :: 0 <= k < i && raws[k].tool == raws[i].tool
                && raws[k].arguments.policy.key == raws[i].arguments.policy.key
  }

  /** The checks on one entry, in the order they are made. */
  function RawFault(raw: Raw, ids: set<string>, seen: set<(Tool, string)>, views: Views<Tool>): Option<LocalError> {
    if !raw.RawCall? || raw.id in ids || raw.tool.Unlisted? then Some(InvalidBatch)
    else if raw.arguments.Unparsable? then Some(InvalidArguments)
    else if raw.arguments.Refused? then Some(ArgumentsRejected)
    else if (raw.tool, raw.arguments.policy.key) in seen then Some(DuplicateOperation)
    else if !LocalPasses(Found(views, raw.tool, raw.tool), raw.tool, raw.arguments.policy) then Some(Incoherent)
    else None
  }

  lemma RawFaultIs(raws: seq<Raw>, i: nat, ids: set<string>, seen: set<(Tool, string)>, views: Views<Tool>)
    requires i < |raws| <= 4 && LocalUpTo(raws, i, ids, seen, views)
    requires raws[i].RawCall? && raws[i].arguments.Fine? ==> ProperPolicy(raws[i].arguments.policy)
    ensures var raw, fault := raws[i], RawFault(raws[i], ids, seen, views);
            if fault.Some? then FaultAt(raws, i, fault.value) && forall n :: !LocallyAcceptable(raws, n)
            else WellShaped(raw)
                 && LocalUpTo(raws, i + 1, ids + {raw.id}, seen + {(raw.tool, raw.arguments.policy.key)},
                              views[raw.tool := Absorbed(Found(views, raw.tool, raw.tool), raw.arguments.policy)])
  {
    NextShape(raws, i, ids, seen, views);
    if WellShaped(raws[i]) && raws[i].id !in ids {
      NextOperation(raws, i, ids, seen, views);
      OperationFault(raws, i, ids, seen, views);
    } else {
      ShapeFault(raws, i, ids, seen, views);
    }
  }

  lemma ShapeFault(raws: seq<Raw>, i: nat, ids: set<string>, seen: set<(Tool, string)>, views: Views<Tool>)
    requires i < |raws| && LocalUpTo(raws, i, ids, seen, views) && (!WellShaped(raws[i]) || raws[i].id in ids)
    ensures var fault := RawFault(raws[i], ids, seen, views); fault.Some? && FaultAt(raws, i, fault.value)
  {
    TakenIff(raws, i, ids);
  }

  lemma OperationFault(raws: seq<Raw>, i: nat, ids: set<string>, seen: set<(Tool, string)>, views: Views<Tool>)
    requires i < |raws| <= 4 && LocalUpTo(raws, i, ids, seen, views)
    requires WellShaped(raws[i]) && raws[i].id !in ids && ProperPolicy(raws[i].arguments.policy)
    ensures var fault := RawFault(raws[i], ids, seen, views); fault.Some? ==> FaultAt(raws, i, fault.value)
  {
    TakenIff(raws, i, ids);
    RepeatsIff(raws, i, seen);
    LocalStep(views, Locals(raws[..i]), seen, raws[i].tool, raws[i].arguments.policy);
  }

  lemma TakenIff(raws: seq<Raw>, i: nat, ids: set<string>)
    requires i < |raws| && IdsSeen(ids, raws[..i])
    ensures raws[i].RawCall? ==>
              (raws[i].id in ids <==> exists k :: 0 <= k < i && raws[k].RawCall? && raws[k].id == raws[i].id)
  {
    assert forall k :: 0 <= k < i ==> raws[..i][k] == raws[k];
  }

  lemma RepeatsIff(raws: seq<Raw>, i: nat, seen: set<(Tool, string)>)
    requires i < |raws| && AllShaped(raws[..i]) && WellShaped(raws[i]) && OperationsSeen(seen, Locals(raws[..i]))
    ensures (raws[i].tool, raws[i].arguments.policy.key) in seen <==> Repeats(raws, i)
  {
    var log := Locals(raws[..i]);
    assert forall k :: 0 <= k < i ==> log[k] == AsLocal(raws[k]);
  }

  /** What the loop has gathered from the first i entries, all of them good. */
  ghost predicate LocalUpTo(raws: seq<Raw>, i: nat, ids: set<string>, seen: set<(Tool, string)>, views: Views<Tool>)
    requires i <= |raws|
  {
    && AllShaped(raws[..i]) && DistinctIds(raws[..i]) && IdsSeen(ids, raws[..i])
    && TurnOk(views, Locals(raws[..i])) && OperationsSeen(seen, Locals(raws[..i]))
  }

  /** An entry of its own bad shape, or with an id that is taken, spoils the batch. */
  lemma NextShape(raws: seq<Raw>, i: nat, ids: set<string>, seen: set<(Tool, string)>, views: Views<Tool>)
    requires i < |raws| && LocalUpTo(raws, i, ids, seen, views)
    ensures !WellShaped(raws[i]) || raws[i].id in ids ==> forall n :: !LocallyAcceptable(raws, n)
  {
    IdTaken(raws, i, ids);
  }

  /** A well-shaped entry passes its checks exactly when the batch is still coherent with it. */
  lemma NextOperation(raws: seq<Raw>, i: nat, ids: set<string>, seen: set<(Tool, string)>, views: Views<Tool>)
    requires i < |raws| <= 4 && LocalUpTo(raws, i, ids, seen, views)
    requires WellShaped(raws[i]) && raws[i].id !in ids && ProperPolicy(raws[i].arguments.policy)
    ensures var raw := raws[i];
            var p, s := raw.arguments.policy, Found(views, raw.tool, raw.tool);
            if (raw.tool, p.key) !in seen && LocalPasses(s, raw.tool, p)
            then LocalUpTo(raws, i + 1, ids + {raw.id}, seen + {(raw.tool, p.key)}, views[raw.tool := Absorbed(s, p)])
            else forall n :: !LocallyAcceptable(raws, n)
  {
    var raw, log := raws[i], Locals(raws[..i]);
    var p := raw.arguments.policy;
    LocalStep(views, log, seen, raw.tool, p);
    PrefixShaped(raws, i);
    LocalPrefix(raws, i + 1, log, raw);
    OperationsGrow(seen, log, AsLocal(raw));
    IdsGrow(ids, raws, i);
  }

  lemma PrefixShaped(raws: seq<Raw>, i: nat)
    requires i < |raws| && WellShaped(raws[i]) && AllShaped(raws[..i])
    ensures AllShaped(raws[..i + 1]) && forall k :: 0 <= k < i + 1 ==> WellShaped(raws[k])
  {
    assert forall k :: 0 <= k < i ==> raws[..i][k] == raws[k];
  }

  ghost predicate IdsSeen(ids: set<string>, raws: seq<Raw>) {
    forall x :: x in ids <==> exists k :: 0 <= k < |raws| && raws[k].RawCall? && raws[k].id == x
  }

  lemma IdTaken(raws: seq<Raw>, i: nat, ids: set<string>)
    requires i < |raws| && IdsSeen(ids, raws[..i])
    ensures DistinctIds(raws) && raws[i].RawCall? ==> raws[i].id !in ids
  {
    if DistinctIds(raws) && raws[i].RawCall? {
      forall k | 0 <= k < i && raws[..i][k].RawCall? ensures raws[..i][k].id != raws[i].id {
        assert raws[..i][k] == raws[k];
      }
    }
  }

  lemma IdsGrow(ids: set<string>, raws: seq<Raw>, i: nat)
    requires i < |raws| && IdsSeen(ids, raws[..i]) && DistinctIds(raws[..i]) && raws[i].RawCall? && raws[i].id !in ids
    ensures IdsSeen(ids + {raws[i].id}, raws[..i + 1]) && DistinctIds(raws[..i + 1])
  {
    var longer := raws[..i + 1];
    assert longer[i] == raws[i];
    forall x
      ensures x in ids + {raws[i].id} <==> exists k :: 0 <= k < |longer| && longer[k].RawCall? && longer[k].id == x
    {
      if x in ids {
        var k :| 0 <= k < i && raws[..i][k].RawCall? && raws[..i][k].id == x;
        assert longer[k] == raws[..i][k];
      }
      if k :| 0 <= k < |longer| && longer[k].RawCall? && longer[k].id == x {
        assert k < i ==> raws[..i][k] == longer[k];
      }
    }
    forall a, b | 0 <= a < b < |longer| && longer[a].RawCall? && longer[b].RawCall?
      ensures longer[a].id != longer[b].id
    {
      assert longer[a] == raws[..i][a];
      if b < i { assert longer[b] == raws[..i][b]; }
    }
  }

  /** A local batch coherent as a whole is coherent up to its n-th call. */
  lemma LocalPrefix(raws: seq<Raw>, n: nat, log: seq<Logged<Tool>>, raw: Raw)
    requires 0 < n <= |raws| && (forall i :: 0 <= i < n ==> WellShaped(raws[i]))
    requires log == Locals(raws[..n - 1]) && raw == raws[n - 1]
    ensures Locals(raws[..n]) == log + [AsLocal(raw)]
    ensures (forall i :: 0 <= i < |raws| ==> WellShaped(raws[i])) && AllCoherent(Locals(raws)) ==>
        AllCoherent(log + [AsLocal(raw)])
  {
    if (forall i :: 0 <= i < |raws| ==> WellShaped(raws[i])) && AllCoherent(Locals(raws)) {
      assert Locals(raws) == Locals(raws[..n]) + Locals(raws[n..]);
      AllCoherentPrefix(Locals(raws[..n]), Locals(raws[n..]));
    }
  }
}
