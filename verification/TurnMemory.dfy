/** What a turn can still resend: which passes forget outputs of executed calls, and which never do. */
module TurnMemory {
  import opened Options
  import opened TurnItems
  import opened TurnLoop
  import opened TurnRuns
  import opened TurnState

  // ----- what a pass adds -----

  lemma DispatchAdds(cfg: Config, s: Turn, r: Response)
    requires ValidResponse(r) && Dispatch(cfg, s, r).Continue?
    ensures Resent(cfg, s) <= Resent(cfg, Dispatch(cfg, s, r).turn)
  {
    var calls := CallsIn(r.output);
    if HasSearch(calls) {
      DiscoverAdds(cfg, s, r);
    } else {
      var s1 := Noted(s, r);
      assert Resent(cfg, s1) == Resent(cfg, s);
      if calls == [] {
        AnswerAdds(cfg, s1, r);
      } else {
        RunToolsAdds(cfg, s1, r);
      }
    }
  }

  lemma DiscoverAdds(cfg: Config, s: Turn, r: Response)
    requires ValidResponse(r) && Discover(cfg, s, r).Continue?
    ensures Resent(cfg, s) <= Resent(cfg, Discover(cfg, s, r).turn)
  {
  }

  lemma RunToolsAdds(cfg: Config, s: Turn, r: Response)
    requires ValidResponse(r) && RunTools(cfg, s, r).Continue?
    ensures Resent(cfg, s) <= Resent(cfg, RunTools(cfg, s, r).turn)
  {
  }

  lemma AnswerAdds(cfg: Config, s: Turn, r: Response)
    requires Answer(cfg, s, r).Continue?
    ensures Resent(cfg, s) <= Resent(cfg, Answer(cfg, s, r).turn)
  {
  }

  // ----- the outputs of executed calls -----

  predicate Remembers(items: seq<Item>, e: Exchange) { Output(false, e.callId, e.output) in items }

  /** Every output of an executed call can still be resent, save for the given ones. */
  ghost predicate RemembersBut(cfg: Config, s: Turn, lost: iset<Exchange>) {
    forall k :: 0 <= k < |s.exchanges| && s.exchanges[k] !in lost ==> Remembers(Resent(cfg, s), s.exchanges[k])
  }

  lemma {:induction false} ExecutedAreOutput(calls: seq<Item>, results: seq<ToolResult>)
    requires |calls| == |results|
    requires forall k :: 0 <= k < |calls| ==> calls[k].Call? && !calls[k].search
    ensures forall e :: e in Executed(calls, results) ==> Remembers(OutputItems(calls, results), e)
  {
    if calls != [] {
      var n := |calls| - 1;
      ExecutedAreOutput(calls[..n], results[..n]);
      var all := OutputItems(calls, results);
      assert all[..n] == OutputItems(calls[..n], results[..n]);
      assert all[n] == Output(false, calls[n].id, results[n].text);
      forall e | e in Executed(calls, results) ensures Remembers(all, e) {
        if e in Executed(calls[..n], results[..n]) {
          assert Remembers(all[..n], e);
        }
      }
    }
  }

  lemma RunToolsRemembers(cfg: Config, s: Turn, r: Response, lost: iset<Exchange>)
    requires ValidResponse(r) && AllUsable(CallsIn(r.output)) && RunTools(cfg, s, r).Continue?
    requires RemembersBut(cfg, s, lost)
    ensures RemembersBut(cfg, RunTools(cfg, s, r).turn, lost)
  {
    var s' := RunTools(cfg, s, r).turn;
    var calls := CallsIn(r.output);
    var outputs := OutputItems(calls, r.results);
    ExecutedAreOutput(calls, r.results);
    forall k | 0 <= k < |s'.exchanges| && s'.exchanges[k] !in lost ensures Remembers(Resent(cfg, s'), s'.exchanges[k]) {
      if k < |s.exchanges| {
        assert Remembers(Resent(cfg, s), s.exchanges[k]);
      } else {
        assert s'.exchanges[k] in Executed(calls, r.results);
        assert Remembers(outputs, s'.exchanges[k]);
      }
    }
  }

  lemma PrefixRemembers(cfg: Config, s: Turn, s': Turn, lost: iset<Exchange>)
    requires RemembersBut(cfg, s, lost) && Resent(cfg, s) <= Resent(cfg, s') && s'.exchanges == s.exchanges
    ensures RemembersBut(cfg, s', lost)
  {
    forall k | 0 <= k < |s.exchanges| && s.exchanges[k] !in lost ensures Remembers(Resent(cfg, s'), s'.exchanges[k]) {
      assert Remembers(Resent(cfg, s), s.exchanges[k]);
    }
  }

  lemma OnlyToolsExtendTheLedger(cfg: Config, s: Turn, r: Response)
    requires ValidResponse(r) && Dispatch(cfg, s, r).Continue?
    requires HasSearch(CallsIn(r.output)) || CallsIn(r.output) == []
    ensures Dispatch(cfg, s, r).turn.exchanges == s.exchanges
  {
  }

  lemma DispatchRemembers(cfg: Config, s: Turn, r: Response, lost: iset<Exchange>)
    requires ValidResponse(r) && RemembersBut(cfg, s, lost) && Dispatch(cfg, s, r).Continue?
    ensures RemembersBut(cfg, Dispatch(cfg, s, r).turn, lost)
  {
    if HasSearch(CallsIn(r.output)) || CallsIn(r.output) == [] {
      DispatchAdds(cfg, s, r);
      OnlyToolsExtendTheLedger(cfg, s, r);
      PrefixRemembers(cfg, s, Dispatch(cfg, s, r).turn, lost);
    } else {
      CallsDispatched(cfg, s, r);
      PrefixRemembers(cfg, s, Noted(s, r), lost);
      RunToolsRemembers(cfg, Noted(s, r), r, lost);
    }
  }

  lemma CallsDispatched(cfg: Config, s: Turn, r: Response)
    requires ValidResponse(r) && CallsIn(r.output) != [] && !HasSearch(CallsIn(r.output))
    requires Dispatch(cfg, s, r).Continue?
    ensures AllUsable(CallsIn(r.output)) && Dispatch(cfg, s, r) == RunTools(cfg, Noted(s, r), r)
    ensures Resent(cfg, Noted(s, r)) == Resent(cfg, s) && Noted(s, r).exchanges == s.exchanges
  {
  }

  // ----- which passes forget -----

  /** Compacting succeeded but the tool summary could not be read: the stateless list is already replaced. */
  predicate FailsLate(cfg: Config, s: Turn, r: Response)
    requires ValidResponse(r)
  {
    Compacts(s, r) && r.compaction.Compacted? && !Rebuild(cfg, s, r).1
  }

  /** The pass compacts, and the compaction goes through. */
  predicate Completes(cfg: Config, s: Turn, r: Response)
    requires ValidResponse(r)
  {
    Compacts(s, r) && r.compaction.Compacted? && Rebuild(cfg, s, r).1
  }

  /** The pass puts another list in place of the resendable items. */
  predicate Replaces(cfg: Config, s: Turn, reply: Reply)
    requires ValidReply(reply)
  {
    reply.Received? &&
    var s1 := Receive(cfg, s, reply.response);
    Completes(cfg, s1, reply.response) || (!cfg.server && FailsLate(cfg, s1, reply.response))
  }

  /** The state a response is dispatched in when the pass does not replace the resendable items. */
  function Dispatched(cfg: Config, s: Turn, r: Response): Turn
    requires ValidResponse(r)
  {
    if !Compacts(s, r) then s
    else if FailsLate(cfg, s, r) then s.(compacted := true, previousId := None, pending := r.compaction.context)
    else s.(compacted := true)
  }

  lemma StepDispatches(cfg: Config, s: Turn, r: Response)
    requires ValidResponse(r) && Step(cfg, s, Received(r)).Continue? && !Completes(cfg, Receive(cfg, s, r), r)
    ensures Step(cfg, s, Received(r)) == Dispatch(cfg, Dispatched(cfg, Receive(cfg, s, r), r), r)
  {
  }

  /** Only a pass that replaces the resendable items takes anything from them. */
  lemma OnlyReplacingForgets(cfg: Config, s: Turn, reply: Reply)
    requires ValidReply(reply) && Inv(cfg, s) && Step(cfg, s, reply).Continue? && !Replaces(cfg, s, reply)
    ensures Resent(cfg, s) <= Resent(cfg, Step(cfg, s, reply).turn)
  {
    match reply
    case Interrupted =>
    case Failure(_, _, _, _, _) =>
    case Received(r) =>
      StepDispatches(cfg, s, r);
      DispatchAdds(cfg, Dispatched(cfg, Receive(cfg, s, r), r), r);
  }

  /** What could be resent before such a pass, and every output it adds to the ledger, can be resent after it. */
  lemma StepRemembers(cfg: Config, s: Turn, reply: Reply, lost: iset<Exchange>)
    requires ValidReply(reply) && Inv(cfg, s) && Step(cfg, s, reply).Continue? && !Replaces(cfg, s, reply)
    requires RemembersBut(cfg, s, lost)
    ensures RemembersBut(cfg, Step(cfg, s, reply).turn, lost)
  {
    match reply
    case Interrupted =>
    case Failure(_, _, _, _, _) =>
      OnlyReplacingForgets(cfg, s, reply);
      PrefixRemembers(cfg, s, Step(cfg, s, reply).turn, lost);
    case Received(r) =>
      var s1 := Dispatched(cfg, Receive(cfg, s, r), r);
      PrefixRemembers(cfg, s, s1, lost);
      StepDispatches(cfg, s, r);
      DispatchRemembers(cfg, s1, r, lost);
  }

  /** The resendable items begin with the given ones and hold the outputs of the ledger, save for the given ones. */
  ghost predicate Recalls(cfg: Config, base: seq<Item>, s: Turn, lost: iset<Exchange>) {
    Inv(cfg, s) && base <= Resent(cfg, s) && RemembersBut(cfg, s, lost)
  }

  /** One pass that lets the turn go on and replaces nothing. */
  predicate AddsOnly(cfg: Config, s: Turn, reply: Reply, s': Turn) {
    Follows(cfg, s, reply, s') && !Replaces(cfg, s, reply)
  }

  predicate AllAddOnly(cfg: Config, states: seq<Turn>, replies: seq<Reply>) {
    && |states| == |replies| + 1
    && forall i {:trigger replies[i]} :: 0 <= i < |replies| ==> AddsOnly(cfg, states[i], replies[i], states[i + 1])
  }

  lemma PassRecalls(cfg: Config, base: seq<Item>, s: Turn, reply: Reply, s': Turn, lost: iset<Exchange>)
    requires Recalls(cfg, base, s, lost) && AddsOnly(cfg, s, reply, s')
    ensures Recalls(cfg, base, s', lost)
  {
    StepKeeps(cfg, s, reply);
    OnlyReplacingForgets(cfg, s, reply);
    StepRemembers(cfg, s, reply, lost);
  }

  /**
   * Over any run of passes none of which replaces the resendable items, whether or not compacting was attempted,
   * those items only grow, and every output in the ledger at its end can be resent unless it was lost before.
   */
  lemma OutputsAreNeverLost(cfg: Config, states: seq<Turn>, replies: seq<Reply>, j: nat, k: nat, lost: iset<Exchange>)
    requires Trace(cfg, states, replies) && Inv(cfg, states[0]) && j <= k < |states|
    requires forall i :: j <= i < k ==> ValidReply(replies[i]) && !Replaces(cfg, states[i], replies[i])
    requires RemembersBut(cfg, states[j], lost)
    ensures Resent(cfg, states[j]) <= Resent(cfg, states[k]) && RemembersBut(cfg, states[k], lost)
  {
    EveryLoopHeadIsPaired(cfg, states, replies, j);
    PartAdds(cfg, states, replies, j, k);
    PartRecalls(cfg, states, replies, j, k, lost);
  }

  lemma PartRecalls(cfg: Config, states: seq<Turn>, replies: seq<Reply>, j: nat, k: nat, lost: iset<Exchange>)
    requires |states| == |replies| + 1 && j <= k < |states| && AllAddOnly(cfg, states[j..k + 1], replies[j..k])
    requires Inv(cfg, states[j]) && RemembersBut(cfg, states[j], lost)
    ensures Recalls(cfg, Resent(cfg, states[j]), states[k], lost)
  {
    var part := states[j..k + 1];
    assert part[0] == states[j] && part[k - j] == states[k];
    PassesRecall(cfg, Resent(cfg, part[0]), part, replies[j..k], lost);
  }

  lemma PartAdds(cfg: Config, states: seq<Turn>, replies: seq<Reply>, j: nat, k: nat)
    requires Trace(cfg, states, replies) && j <= k < |states|
    requires forall i :: j <= i < k ==> ValidReply(replies[i]) && !Replaces(cfg, states[i], replies[i])
    ensures AllAddOnly(cfg, states[j..k + 1], replies[j..k])
  {
    var part, answers := states[j..k + 1], replies[j..k];
    forall i {:trigger answers[i]} | 0 <= i < |answers| ensures AddsOnly(cfg, part[i], answers[i], part[i + 1]) {
      assert Follows(cfg, states[j + i], replies[j + i], states[j + i + 1]);
    }
  }

  lemma PassesRecall(cfg: Config, base: seq<Item>, states: seq<Turn>, replies: seq<Reply>, lost: iset<Exchange>)
    requires AllAddOnly(cfg, states, replies) && Recalls(cfg, base, states[0], lost)
    ensures Recalls(cfg, base, states[|replies|], lost)
  {
    var holds := (i: nat, s: Turn) => Recalls(cfg, base, s, lost);
    var follows := (s: Turn, reply: Reply, s': Turn) => AddsOnly(cfg, s, reply, s');
    forall i: nat, s, reply, s' | holds(i, s) && follows(s, reply, s') ensures holds(i + 1, s') {
      PassRecalls(cfg, base, s, reply, s', lost);
    }
    Along(states, replies, follows, holds, |replies|);
  }

  // ----- a compaction that does not complete -----

  /**
   * A pass that starts compacting and does not complete it keeps the resendable items, with every output in them,
   * exactly unless it fails late in the stateless mode; with nothing in the ledger it cannot fail late.
   */
  lemma IncompleteForgetsIff(cfg: Config, s: Turn, r: Response)
    requires ValidResponse(r) && Inv(cfg, s) && Step(cfg, s, Received(r)).Continue? && RemembersBut(cfg, s, iset{})
    requires Compacts(Receive(cfg, s, r), r) && !Completes(cfg, Receive(cfg, s, r), r)
    ensures var s' := Step(cfg, s, Received(r)).turn;
            Resent(cfg, s) <= Resent(cfg, s') && RemembersBut(cfg, s', iset{})
            <==> cfg.server || !FailsLate(cfg, Receive(cfg, s, r), r)
    ensures s.exchanges == [] ==> !FailsLate(cfg, Receive(cfg, s, r), r)
  {
    var s' := Step(cfg, s, Received(r)).turn;
    if cfg.server || !FailsLate(cfg, Receive(cfg, s, r), r) {
      OnlyReplacingForgets(cfg, s, Received(r));
      StepRemembers(cfg, s, Received(r), iset{});
    } else {
      LateFailureForgetsAll(cfg, s, r, s.exchanges[0]);
      LedgerKept(cfg, s, r);
      assert s'.exchanges[0] == s.exchanges[0];
    }
  }

  lemma LedgerKept(cfg: Config, s: Turn, r: Response)
    requires ValidResponse(r) && Step(cfg, s, Received(r)).Continue? && !Completes(cfg, Receive(cfg, s, r), r)
    ensures s.exchanges <= Step(cfg, s, Received(r)).turn.exchanges
  {
    StepDispatches(cfg, s, r);
    DispatchLedger(cfg, Dispatched(cfg, Receive(cfg, s, r), r), r);
  }

  lemma DispatchLedger(cfg: Config, s: Turn, r: Response)
    requires ValidResponse(r) && Dispatch(cfg, s, r).Continue?
    ensures s.exchanges <= Dispatch(cfg, s, r).turn.exchanges
  {
    if HasSearch(CallsIn(r.output)) || CallsIn(r.output) == [] { OnlyToolsExtendTheLedger(cfg, s, r); }
  }

  /** A stateless turn whose compaction fails late can resend none of the outputs it had. */
  lemma LateFailureForgetsAll(cfg: Config, s: Turn, r: Response, e: Exchange)
    requires ValidResponse(r) && !cfg.server && Inv(cfg, s) && FailsLate(cfg, Receive(cfg, s, r), r)
    requires Step(cfg, s, Received(r)).Continue? && e in s.exchanges
    ensures !Remembers(Step(cfg, s, Received(r)).turn.pending, e)
  {
    var s2 := Dispatched(cfg, Receive(cfg, s, r), r);
    StepDispatches(cfg, s, r);
    UsableCallsRun(cfg, s2, r);
    var calls := CallsIn(r.output);
    var outputs := OutputItems(calls, r.results);
    ContinuationFacts(cfg, r.output);
    CallIds(r.output);
    OutputsOnlyFor(r.compaction.context, Continuation(cfg, r.output), calls, outputs, e);
  }

  lemma UsableCallsRun(cfg: Config, s: Turn, r: Response)
    requires ValidResponse(r) && !cfg.server && HasUsable(CallsIn(r.output)) && Dispatch(cfg, s, r).Continue?
    ensures Fresh(CallsIn(r.output), s.seen)
    ensures var round := s.pending + (Continuation(cfg, r.output) + OutputItems(CallsIn(r.output), r.results));
            Dispatch(cfg, s, r).turn.pending in {round, round + [ANTI_LOOP]}
  {
    var calls := CallsIn(r.output);
    assert HasFunction(calls);
    if !HasSearch(calls) {
      assert calls != [];
      assert Dispatch(cfg, s, r) == RunTools(cfg, Noted(s, r), r);
      ToolsAppend(cfg, Noted(s, r), r);
    }
  }

  lemma ToolsAppend(cfg: Config, s: Turn, r: Response)
    requires ValidResponse(r) && !cfg.server && RunTools(cfg, s, r).Continue?
    ensures var round := s.pending + (Continuation(cfg, r.output) + OutputItems(CallsIn(r.output), r.results));
            RunTools(cfg, s, r).turn.pending in {round, round + [ANTI_LOOP]}
  {
    if s.sameTool < cfg.maxSameTool {
      var round := s.pending + (Continuation(cfg, r.output) + OutputItems(CallsIn(r.output), r.results));
      assert round + [] == round;
    }
  }

  lemma OutputsOnlyFor(context: seq<Item>, c: seq<Item>, calls: seq<Item>, outputs: seq<Item>, e: Exchange)
    requires OnlyNotes(context) && NoOutputs(c) && OneOutputEach(calls, outputs)
    requires forall k :: 0 <= k < |calls| && calls[k].Call? ==> calls[k].id != e.callId
    ensures !Remembers(context + (c + outputs), e) && !Remembers(context + (c + outputs) + [ANTI_LOOP], e)
  {
    forall k | 0 <= k < |outputs| ensures outputs[k] != Output(false, e.callId, e.output) {
      assert Answers(outputs[k], calls[k]);
    }
  }

  // ----- requests that repeat themselves -----

  /** A stateless pass that sends the same items again was given reasoning it must not replay, and nothing else. */
  predicate Barren(cfg: Config, s: Turn, r: Response) {
    && CallsIn(r.output) == [] && Continuation(cfg, r.output) == []
    && r.finalText.None? && r.convenienceText == "" && r.output != []
  }

  /** A stateless pass whose compaction, if there is one, does not complete. */
  lemma StatelessRepeatIff(cfg: Config, s: Turn, r: Response)
    requires ValidResponse(r) && !cfg.server && !Completes(cfg, Receive(cfg, s, r), r)
    requires FailsLate(cfg, Receive(cfg, s, r), r) ==> Inv(cfg, s)
    requires Step(cfg, s, Received(r)).Continue?
    ensures Step(cfg, s, Received(r)).turn.pending == s.pending <==> Barren(cfg, s, r)
  {
    var s1 := Dispatched(cfg, Receive(cfg, s, r), r);
    StepDispatches(cfg, s, r);
    if FailsLate(cfg, Receive(cfg, s, r), r) {
      LateFailureChanges(cfg, s, r);
    } else {
      DispatchRepeatIff(cfg, s1, r);
    }
  }

  lemma DispatchRepeatIff(cfg: Config, s: Turn, r: Response)
    requires ValidResponse(r) && !cfg.server && Dispatch(cfg, s, r).Continue?
    ensures Dispatch(cfg, s, r).turn.pending == s.pending <==> Barren(cfg, s, r)
  {
    var calls := CallsIn(r.output);
    if HasSearch(calls) {
      DiscoverGrows(cfg, s, r);
    } else if calls != [] {
      ToolsAppend(cfg, Noted(s, r), r);
    } else {
      AnswerRepeatIff(cfg, Noted(s, r), r);
    }
  }

  /** A late failure puts calls with new ids in the list. */
  lemma LateFailureChanges(cfg: Config, s: Turn, r: Response)
    requires ValidResponse(r) && !cfg.server && Inv(cfg, s) && FailsLate(cfg, Receive(cfg, s, r), r)
    requires Step(cfg, s, Received(r)).Continue?
    ensures CallsIn(r.output) != [] && Step(cfg, s, Received(r)).turn.pending != s.pending
  {
    var s2, calls := Dispatched(cfg, Receive(cfg, s, r), r), CallsIn(r.output);
    StepDispatches(cfg, s, r);
    UsableCallsRun(cfg, s2, r);
    ContinuationFacts(cfg, r.output);
    CallsInMembers(Continuation(cfg, r.output));
    assert calls[0] in calls && calls[0] in Continuation(cfg, r.output);
    NewCall(s.pending, s.seen, calls[0]);
  }

  lemma NewCall(items: seq<Item>, seen: set<string>, call: Item)
    requires Ids(items) <= seen && call.Call? && call.id !in seen
    ensures call !in items
  {
    forall i | 0 <= i < |items| ensures items[i] != call {
      if !items[i].Note? { IdIn(items, i); }
    }
  }

  lemma DiscoverGrows(cfg: Config, s: Turn, r: Response)
    requires ValidResponse(r) && !cfg.server && HasSearch(CallsIn(r.output)) && Discover(cfg, s, r).Continue?
    ensures |Discover(cfg, s, r).turn.pending| > |s.pending|
  {
  }

  lemma AnswerRepeatIff(cfg: Config, s: Turn, r: Response)
    requires CallsIn(r.output) == [] && !cfg.server && Answer(cfg, s, r).Continue?
    ensures Answer(cfg, s, r).turn.pending == s.pending <==> Barren(cfg, s, r)
  {
    assert Answer(cfg, s, r).turn.pending[..|s.pending|] == s.pending;
  }

  // ----- a turn that loses an output -----

  const STATELESS: Config := Config(false, false, true, 80, 5, 8, 5, {}, 0)

  /** The turn loop's first reply: one call, and what its tool answers. */
  const FIRST: Response := Response(Some("r1"), CompletedStatus, [Call(false, "a", "read", "{}")], None, "", false,
    false, CompactionFailed, Refused, [ToolResult("found", false)], false, None, false, false, "")

  /** The second: another call, past the compaction limit, and no tool summary to be read. */
  const SECOND: Response := Response(Some("r2"), CompletedStatus, [Call(false, "b", "read", "{}")], None, "", false,
    true, Compacted([Note(Text, "summary")], SummaryFailed), Refused, [ToolResult("more", false)], false, None, false,
    false, "")

  lemma OneCall(cfg: Config, call: Item, result: ToolResult)
    requires Usable(call) && !result.rejected
    ensures CallsIn([call]) == [call] && Continuation(cfg, [call]) == [call] && Ids([call]) == {call.id}
    ensures Executed([call], [result]) == [Exchange(call.id, call.name, call.arguments, result.text)]
    ensures OutputItems([call], [result]) == [Output(false, call.id, result.text)]
  {
    assert [call][..0] == [];
    assert CallsIn([call]) == CallsIn([]) + [call];
    assert Continuation(cfg, [call]) == Continuation(cfg, []) + [call];
    IdIn([call], 0);
    assert [result][..0] == [];
  }

  /** A pass that runs one call, step by step. */
  lemma OneCallRuns(s: Turn, call: Item, result: ToolResult, r: Response)
    requires ValidResponse(r) && r.output == [call] && r.results == [result] && Usable(call) && !result.rejected
    requires call.id !in s.seen && !r.toolsThrew && r.deterministicAnswer.None? && s.sameTool < 4
    ensures var o := Dispatch(STATELESS, s, r);
            o.Continue? && o.turn.exchanges == s.exchanges + [Exchange(call.id, call.name, call.arguments, result.text)]
            && o.turn.pending == s.pending + [call, Output(false, call.id, result.text)]
            && o.turn.seen == s.seen + {call.id} && o.turn.iteration == s.iteration + 1
            && o.turn.compacted == s.compacted && o.turn.programInFlight == s.programInFlight
            && o.turn.sameTool <= s.sameTool + 1
  {
    OneCall(STATELESS, call, result);
    OneCallNoted(s, call, r);
    ToolsRun(STATELESS, Noted(s, r), r);
    AppendTwo(s.pending, call, Output(false, call.id, result.text));
  }

  lemma OneCallNoted(s: Turn, call: Item, r: Response)
    requires ValidResponse(r) && CallsIn(r.output) == [call] && Usable(call)
    requires call.id !in s.seen && s.sameTool < 4
    ensures Dispatch(STATELESS, s, r) == RunTools(STATELESS, Noted(s, r), r)
    ensures var s1 := Noted(s, r);
            s1 == s.(seen := s.seen + Ids(r.output), sameTool := s1.sameTool, lastTool := s1.lastTool)
            && s1.sameTool <= s.sameTool + 1 < STATELESS.maxSameTool
  {
    assert !HasSearch([call]) && AllUsable([call]) && GoodEnvelope([call], s.seen);
    CallsRun(STATELESS, s, r);
    CountedCall(s.(seen := s.seen + Ids(r.output)), call);
  }

  lemma CallsRun(cfg: Config, s: Turn, r: Response)
    requires ValidResponse(r) && !cfg.server && !cfg.clientSearch && CallsIn(r.output) != []
    requires !HasSearch(CallsIn(r.output)) && AllUsable(CallsIn(r.output)) && GoodEnvelope(CallsIn(r.output), s.seen)
    ensures Dispatch(cfg, s, r) == RunTools(cfg, Noted(s, r), r)
  {
  }

  lemma CountedCall(s: Turn, call: Item)
    ensures var s1 := CountSameTool(s, [call]);
            s1 == s.(sameTool := s1.sameTool, lastTool := s1.lastTool) && s1.sameTool <= s.sameTool + 1
  {
  }

  lemma ToolsRun(cfg: Config, s: Turn, r: Response)
    requires ValidResponse(r) && !cfg.server && !r.toolsThrew && r.deterministicAnswer.None?
    requires s.sameTool < cfg.maxSameTool
    ensures var calls := CallsIn(r.output);
            RunTools(cfg, s, r)
            == Continue(s.(iteration := s.iteration + 1, toolChain := true, emptyRetries := 0, previousId := None,
                           exchanges := s.exchanges + Executed(calls, r.results),
                           pending := s.pending + (Continuation(cfg, r.output) + OutputItems(calls, r.results)) + []))
  {
  }

  lemma AppendTwo(items: seq<Item>, a: Item, b: Item)
    ensures items + ([a] + [b]) + [] == items + [a, b]
  {
  }

  /** A turn of two passes that loses the output of its first call: the next request has neither it nor its call. */
  lemma LateFailureReached(s: Turn) returns (s1: Turn, s2: Turn)
    requires s == Opening(STATELESS, [Note(Text, "goal")], [], None, "goal")
    ensures Follows(STATELESS, s, Received(FIRST), s1) && Follows(STATELESS, s1, Received(SECOND), s2)
    ensures FailsLate(STATELESS, Receive(STATELESS, s1, SECOND), SECOND)
    ensures s1.exchanges == [Exchange("a", "read", "{}", "found")] && Remembers(s1.pending, s1.exchanges[0])
    ensures s2.pending == [Note(Text, "summary"), Call(false, "b", "read", "{}"), Output(false, "b", "more")]
    ensures !Remembers(s2.pending, s1.exchanges[0])
  {
    s1 := FirstPass(s);
    s2 := SecondPass(s1);
    assert s1.pending[2] == Output(false, "a", "found");
  }

  lemma FirstPass(s: Turn) returns (s': Turn)
    requires s == Opening(STATELESS, [Note(Text, "goal")], [], None, "goal")
    ensures Follows(STATELESS, s, Received(FIRST), s')
    ensures s'.exchanges == [Exchange("a", "read", "{}", "found")] && s'.seen == {"a"}
    ensures s'.pending == [Note(Text, "goal"), FIRST.output[0], Output(false, "a", "found")]
    ensures s'.iteration == 1 && !s'.compacted && !s'.programInFlight && s'.sameTool <= 1
  {
    OneCall(STATELESS, FIRST.output[0], FIRST.results[0]);
    var s1 := Receive(STATELESS, s, FIRST);
    OneCallRuns(s1, FIRST.output[0], FIRST.results[0], FIRST);
    s' := Dispatch(STATELESS, s1, FIRST).turn;
    assert Step(STATELESS, s, Received(FIRST)) == Continue(s');
  }

  lemma SecondPass(s: Turn) returns (s': Turn)
    requires s.iteration == 1 && !s.compacted && !s.programInFlight && s.sameTool <= 1 && |s.exchanges| == 1
    requires s.seen == {"a"}
    ensures FailsLate(STATELESS, Receive(STATELESS, s, SECOND), SECOND)
    ensures Follows(STATELESS, s, Received(SECOND), s')
    ensures s'.pending == [Note(Text, "summary"), SECOND.output[0], Output(false, "b", "more")]
  {
    OneCall(STATELESS, SECOND.output[0], SECOND.results[0]);
    SecondCompacts(s);
    var s1 := Dispatched(STATELESS, Receive(STATELESS, s, SECOND), SECOND);
    LateStep(STATELESS, s, SECOND);
    OneCallRuns(s1, SECOND.output[0], SECOND.results[0], SECOND);
    s' := Dispatch(STATELESS, s1, SECOND).turn;
  }

  lemma LateStep(cfg: Config, s: Turn, r: Response)
    requires ValidResponse(r) && FailsLate(cfg, Receive(cfg, s, r), r) && !r.status.OtherStatus?
    requires !cfg.server
    ensures var s1 := Dispatched(cfg, Receive(cfg, s, r), r);
            Step(cfg, s, Received(r)) == Dispatch(cfg, s1, r)
            && s1.seen == s.seen && s1.iteration == s.iteration && s1.sameTool == s.sameTool
            && s1.pending == r.compaction.context
  {
  }

  lemma NothingReplayed(exchanges: seq<Exchange>)
    requires |exchanges| == 1
    ensures Replayed(STATELESS, exchanges) == []
  {
    assert Replayable(STATELESS, exchanges[..0]) == [];
  }

  lemma FailsLateWhen(cfg: Config, s: Turn, r: Response)
    requires ValidResponse(r) && Compacts(s, r) && r.compaction.Compacted? && r.compaction.summary.SummaryFailed?
    requires |Replayed(cfg, s.exchanges)| < |s.exchanges|
    ensures FailsLate(cfg, s, r)
  {
  }

  lemma SecondCompacts(s: Turn)
    requires s.iteration > 0 && !s.compacted && !s.programInFlight && |s.exchanges| == 1
    ensures ValidResponse(SECOND) && FailsLate(STATELESS, Receive(STATELESS, s, SECOND), SECOND)
  {
    OneCall(STATELESS, SECOND.output[0], SECOND.results[0]);
    NothingReplayed(s.exchanges);
    FailsLateWhen(STATELESS, Receive(STATELESS, s, SECOND), SECOND);
  }

  // ----- a compaction that completes -----

  /** Of the outputs in the ledger, the rebuilt list holds exactly those replayed. */
  lemma RebuildRemembersIff(cfg: Config, s: Turn, r: Response, e: Exchange)
    requires ValidResponse(r) && r.compaction.Compacted? && Rebuild(cfg, s, r).1 && e in s.exchanges
    requires DistinctExchanges(s.exchanges) && ExchangeIds(s.exchanges) !! Ids(s.discovery)
    ensures Remembers(Rebuild(cfg, s, r).0, e) <==> e in Replayed(cfg, s.exchanges)
  {
    var kept, summary := Replayed(cfg, s.exchanges), r.compaction.summary;
    var note := if |kept| < |s.exchanges| && summary.Summary? then [Note(Text, summary.text)] else [];
    var o := Output(false, e.callId, e.output);
    assert o !in r.compaction.context + note + [NOTICE];
    NotInDiscovery(s, e);
    assert Remembers(Rebuild(cfg, s, r).0, e) <==> o in Pairs(kept);
    if e in kept {
      PairsHold(kept, e);
    } else if o in Pairs(kept) {
      PairsOnlyHold(kept, e);
      var e' :| e' in kept && e'.callId == e.callId;
      ReplayedInLedger(cfg, s.exchanges, e');
    }
  }

  lemma NotInDiscovery(s: Turn, e: Exchange)
    requires e in s.exchanges && ExchangeIds(s.exchanges) !! Ids(s.discovery)
    ensures Output(false, e.callId, e.output) !in s.discovery
  {
    var k :| 0 <= k < |s.exchanges| && s.exchanges[k] == e;
    assert s.exchanges[k].callId in ExchangeIds(s.exchanges);
    forall i | 0 <= i < |s.discovery| && !s.discovery[i].Note?
      ensures s.discovery[i].id != e.callId
    {
      IdIn(s.discovery, i);
    }
  }

  lemma {:induction false} ReplayableInLedger(cfg: Config, exchanges: seq<Exchange>, e: Exchange)
    requires e in Replayable(cfg, exchanges)
    ensures e in exchanges
  {
    var n := |exchanges| - 1;
    if e != exchanges[n] { ReplayableInLedger(cfg, exchanges[..n], e); }
  }

  lemma ReplayedInLedger(cfg: Config, exchanges: seq<Exchange>, e: Exchange)
    requires e in Replayed(cfg, exchanges)
    ensures e in exchanges
  {
    ReplayableInLedger(cfg, exchanges, e);
  }

  lemma {:induction false} PairsHold(exchanges: seq<Exchange>, e: Exchange)
    requires e in exchanges
    ensures Remembers(Pairs(exchanges), e)
  {
    var n := |exchanges| - 1;
    if e == exchanges[n] {
      assert Pairs(exchanges)[|Pairs(exchanges)| - 1] == Output(false, e.callId, e.output);
    } else {
      assert exchanges == exchanges[..n] + [exchanges[n]];
      PairsHold(exchanges[..n], e);
    }
  }

  lemma {:induction false} PairsOnlyHold(exchanges: seq<Exchange>, e: Exchange)
    requires Remembers(Pairs(exchanges), e)
    ensures exists e' :: e' in exchanges && e'.callId == e.callId
  {
    var n := |exchanges| - 1;
    if exchanges[n].callId == e.callId {
      assert exchanges[n] in exchanges;
    } else {
      PairsOnlyHold(exchanges[..n], e);
      var e' :| e' in exchanges[..n] && e'.callId == e.callId;
      assert e' in exchanges;
    }
  }
}
