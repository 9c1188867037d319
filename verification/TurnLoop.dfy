/** What every pass of the turn loop keeps, and what whole turns guarantee. */
module TurnLoop {
  import opened Options
  import opened TurnItems
  import opened TurnState

  /** The items the turn would send again from scratch. */
  function Resent(cfg: Config, s: Turn): seq<Item> { if cfg.server then s.recovery else s.pending }

  /** Everything that can be replayed is paired, and every id in it has been seen. */
  predicate Kept(items: seq<Item>, s: Turn) {
    && Paired(items) && Ids(items) <= s.seen
    && Paired(s.discovery) && Ids(s.discovery) <= s.seen
    && DistinctExchanges(s.exchanges) && ExchangeIds(s.exchanges) <= s.seen
    && ExchangeIds(s.exchanges) !! Ids(s.discovery)
  }

  predicate Inv(cfg: Config, s: Turn) {
    && Kept(Resent(cfg, s), s)
    && (!cfg.server ==> s.previousId == None)
    && s.transientRetries <= cfg.maxTransientRetries
  }

  // ----- the continuation of a response -----

  /** Only reasoning notes are dropped. */
  lemma {:induction false} ContinuationKeepsNotes(cfg: Config, output: seq<Item>)
    ensures NoOutputs(output) ==> NoOutputs(Continuation(cfg, output))
    ensures OnlyNotes(output) ==> OnlyNotes(Continuation(cfg, output))
  {
    if output != [] {
      ContinuationKeepsNotes(cfg, output[..|output| - 1]);
    }
  }

  lemma {:induction false} ContinuationIds(cfg: Config, output: seq<Item>)
    ensures Ids(Continuation(cfg, output)) == Ids(output)
  {
    if output != [] {
      var n := |output| - 1;
      var last := output[n..];
      ContinuationIds(cfg, output[..n]);
      assert output == output[..n] + last;
      IdsConcat(output[..n], last);
      if output[n].Note? && output[n].kind == Reasoning && !cfg.replayReasoning {
        NotesArePaired(last);
        assert Continuation(cfg, output) == Continuation(cfg, output[..n]);
      } else {
        assert Continuation(cfg, output) == Continuation(cfg, output[..n]) + last;
        IdsConcat(Continuation(cfg, output[..n]), last);
      }
    }
  }

  lemma {:induction false} ContinuationCalls(cfg: Config, output: seq<Item>)
    ensures CallsIn(Continuation(cfg, output)) == CallsIn(output)
  {
    if output != [] {
      var n := |output| - 1;
      ContinuationCalls(cfg, output[..n]);
      var init, all := Continuation(cfg, output[..n]), Continuation(cfg, output);
      if output[n].Note? && output[n].kind == Reasoning && !cfg.replayReasoning {
        assert all == init;
        assert CallsIn(output) == CallsIn(output[..n]);
      } else {
        assert all == init + [output[n]];
        assert all[..|all| - 1] == init;
      }
    }
  }

  lemma ContinuationFacts(cfg: Config, output: seq<Item>)
    ensures Ids(Continuation(cfg, output)) == Ids(output)
    ensures CallsIn(Continuation(cfg, output)) == CallsIn(output)
    ensures NoOutputs(output) ==> NoOutputs(Continuation(cfg, output))
    ensures OnlyNotes(output) ==> OnlyNotes(Continuation(cfg, output))
  {
    ContinuationKeepsNotes(cfg, output);
    ContinuationIds(cfg, output);
    ContinuationCalls(cfg, output);
  }

  lemma CallIds(output: seq<Item>)
    requires NoOutputs(output)
    ensures Ids(CallsIn(output)) == Ids(output)
    ensures CallsIn(output) == [] ==> OnlyNotes(output) && Ids(output) == {}
  {
    CallsInMembers(output);
    var calls := CallsIn(output);
    forall x | x in Ids(output) ensures x in Ids(calls) {
      var i :| 0 <= i < |output| && !output[i].Note? && output[i].id == x;
      assert output[i] in calls;
      var k :| 0 <= k < |calls| && calls[k] == output[i];
      IdIn(calls, k);
    }
    forall x | x in Ids(calls) ensures x in Ids(output) {
      var k :| 0 <= k < |calls| && !calls[k].Note? && calls[k].id == x;
      assert calls[k] in calls;
      var i :| 0 <= i < |output| && output[i] == calls[k];
      IdIn(output, i);
    }
  }

  lemma FreshIds(output: seq<Item>, seen: set<string>)
    requires NoOutputs(output) && Fresh(CallsIn(output), seen)
    ensures Ids(output) !! seen
  {
    CallIds(output);
  }

  /** A fresh response and one output per call may follow any paired list. */
  lemma RoundFollows(cfg: Config, base: seq<Item>, seen: set<string>, r: Response)
    requires ValidResponse(r) && Fresh(CallsIn(r.output), seen)
    requires Paired(base) && Ids(base) <= seen
    ensures var round := Continuation(cfg, r.output) + OutputItems(CallsIn(r.output), r.results);
            Paired(round) && Ids(round) == Ids(r.output) && Ids(round) !! seen
            && Paired(base + round) && Ids(base + round) <= seen + Ids(r.output)
  {
    var outputs := OutputItems(CallsIn(r.output), r.results);
    ContinuationFacts(cfg, r.output);
    RoundIsPaired(Continuation(cfg, r.output), outputs);
    FreshIds(r.output, seen);
    PairedConcat(base, Continuation(cfg, r.output) + outputs);
    IdsConcat(base, Continuation(cfg, r.output) + outputs);
  }

  lemma NotesFollow(base: seq<Item>, notes: seq<Item>)
    requires Paired(base) && OnlyNotes(notes)
    ensures Paired(base + notes) && Ids(base + notes) == Ids(base)
  {
    NotesArePaired(notes);
    PairedConcat(base, notes);
    IdsConcat(base, notes);
  }

  // ----- the ledger of executed calls -----

  lemma {:induction false} ExecutedFacts(calls: seq<Item>, results: seq<ToolResult>)
    requires |calls| == |results| && DistinctIds(calls) && forall k :: 0 <= k < |calls| ==> calls[k].Call?
    ensures DistinctExchanges(Executed(calls, results)) && ExchangeIds(Executed(calls, results)) <= Ids(calls)
  {
    if calls != [] {
      var n := |calls| - 1;
      var init := Executed(calls[..n], results[..n]);
      ExecutedFacts(calls[..n], results[..n]);
      assert calls == calls[..n] + [calls[n]];
      IdsConcat(calls[..n], [calls[n]]);
      IdIn([calls[n]], 0);
      assert calls[n].id !in Ids(calls[..n]);
      SnocExchange(init, Exchange(calls[n].id, calls[n].name, calls[n].arguments, results[n].text));
    }
  }

  lemma SnocExchange(init: seq<Exchange>, e: Exchange)
    requires DistinctExchanges(init) && e.callId !in ExchangeIds(init)
    ensures DistinctExchanges(init + [e]) && ExchangeIds(init + [e]) == ExchangeIds(init) + {e.callId}
  {
    var all := init + [e];
    forall i, j | 0 <= i < j < |all| ensures all[i].callId != all[j].callId {
      assert init[i].callId in ExchangeIds(init);
    }
    assert all[|init|].callId == e.callId;
    assert forall i :: 0 <= i < |init| ==> all[i].callId == init[i].callId;
  }

  lemma LedgerGrows(ledger: seq<Exchange>, more: seq<Exchange>)
    requires DistinctExchanges(ledger) && DistinctExchanges(more) && ExchangeIds(ledger) !! ExchangeIds(more)
    ensures DistinctExchanges(ledger + more)
    ensures ExchangeIds(ledger + more) == ExchangeIds(ledger) + ExchangeIds(more)
  {
    var all := ledger + more;
    forall i, j | 0 <= i < j < |all| ensures all[i].callId != all[j].callId {
      if i < |ledger| && j >= |ledger| {
        assert ledger[i].callId in ExchangeIds(ledger) && more[j - |ledger|].callId in ExchangeIds(more);
      }
    }
    assert forall i :: 0 <= i < |more| ==> all[|ledger| + i].callId == more[i].callId;
    assert forall i :: 0 <= i < |ledger| ==> all[i].callId == ledger[i].callId;
  }

  lemma {:induction false} ReplayableFacts(cfg: Config, exchanges: seq<Exchange>)
    requires DistinctExchanges(exchanges)
    ensures DistinctExchanges(Replayable(cfg, exchanges))
    ensures ExchangeIds(Replayable(cfg, exchanges)) <= ExchangeIds(exchanges)
  {
    if exchanges != [] {
      var n := |exchanges| - 1;
      ReplayableFacts(cfg, exchanges[..n]);
      assert exchanges == exchanges[..n] + [exchanges[n]];
      assert exchanges[n].callId !in ExchangeIds(exchanges[..n]);
      SnocExchange(exchanges[..n], exchanges[n]);
      SnocExchange(Replayable(cfg, exchanges[..n]), exchanges[n]);
    }
  }

  lemma ReplayedFacts(cfg: Config, exchanges: seq<Exchange>)
    requires DistinctExchanges(exchanges)
    ensures var kept := Replayed(cfg, exchanges);
            DistinctExchanges(kept) && ExchangeIds(kept) <= ExchangeIds(exchanges)
  {
    ReplayableFacts(cfg, exchanges);
    var direct, kept := Replayable(cfg, exchanges), Replayed(cfg, exchanges);
    var k := |direct| - |kept|;
    assert forall i :: 0 <= i < |kept| ==> kept[i] == direct[k + i];
    forall x | x in ExchangeIds(kept) ensures x in ExchangeIds(direct) {
      var i :| 0 <= i < |kept| && kept[i].callId == x;
      assert direct[k + i].callId == x;
    }
  }

  // ----- every branch keeps the invariant -----

  /** Between receiving a response and acting on it; `base` is what was resendable before. */
  predicate Acting(cfg: Config, base: seq<Item>, s: Turn, r: Response) {
    ValidResponse(r) && Kept(base, s) && s.transientRetries <= cfg.maxTransientRetries && Added(cfg, base, s, r)
  }

  predicate Added(cfg: Config, base: seq<Item>, s: Turn, r: Response) {
    if cfg.server then s.recovery == base + Continuation(cfg, r.output)
    else s.pending == base && s.previousId == None
  }

  lemma DiscoverKeeps(cfg: Config, base: seq<Item>, s: Turn, r: Response)
    requires Acting(cfg, base, s, r) && Discover(cfg, s, r).Continue?
    ensures Inv(cfg, Discover(cfg, s, r).turn)
  {
    var round := Continuation(cfg, r.output) + OutputItems(CallsIn(r.output), r.results);
    DiscoverFrame(cfg, base, s, r);
    RoundFollows(cfg, base, s.seen, r);
    RoundFollows(cfg, s.discovery, s.seen, r);
    RoundKept(base, s, Discover(cfg, s, r).turn, round, Ids(r.output));
  }

  /** What a discovery round does to the lists and the ids. */
  lemma DiscoverFrame(cfg: Config, base: seq<Item>, s: Turn, r: Response)
    requires Acting(cfg, base, s, r) && Discover(cfg, s, r).Continue?
    ensures var t := Discover(cfg, s, r).turn;
            var round := Continuation(cfg, r.output) + OutputItems(CallsIn(r.output), r.results);
            && Fresh(CallsIn(r.output), s.seen) && Resent(cfg, t) == base + round
            && t.seen == s.seen + Ids(r.output) && t.exchanges == s.exchanges
            && t.discovery in {s.discovery, s.discovery + round}
            && (!cfg.server ==> t.previousId == None) && t.transientRetries == s.transientRetries
  {
    var outputs := OutputItems(CallsIn(r.output), r.results);
    Assoc(base, Continuation(cfg, r.output), outputs);
  }

  lemma Assoc(a: seq<Item>, b: seq<Item>, c: seq<Item>)
    ensures a + b + c == a + (b + c)
  {
  }

  /** A paired round of new ids may be added to the list, and to the discovery rounds. */
  lemma RoundKept(base: seq<Item>, s: Turn, t: Turn, round: seq<Item>, ids: set<string>)
    requires Kept(base, s) && Ids(round) == ids && ids !! s.seen
    requires Paired(base + round) && Ids(base + round) <= s.seen + ids
    requires Paired(s.discovery + round) && Ids(s.discovery + round) <= s.seen + ids
    requires t.seen == s.seen + ids && t.exchanges == s.exchanges && t.discovery in {s.discovery, s.discovery + round}
    ensures Kept(base + round, t)
  {
    IdsConcat(s.discovery, round);
  }

  lemma ConcludeKeeps(cfg: Config, base: seq<Item>, s: Turn, r: Response)
    requires Acting(cfg, base, s, r) && OnlyNotes(r.output) && Conclude(cfg, s, r).Continue?
    ensures Inv(cfg, Conclude(cfg, s, r).turn)
  {
    var s' := Conclude(cfg, s, r).turn;
    var c, nudge := Continuation(cfg, r.output), [Note(Text, r.nudge)];
    ContinuationFacts(cfg, r.output);
    assert OnlyNotes(c + nudge) && OnlyNotes(c + (c + nudge));
    if cfg.server {
      NotesFollow(base, c + (c + nudge));
      assert s'.recovery == base + (c + (c + nudge));
    } else {
      NotesFollow(base, c + nudge);
      assert s'.pending == base + (c + nudge);
    }
  }

  lemma WaitForTextKeeps(cfg: Config, base: seq<Item>, s: Turn, r: Response)
    requires Acting(cfg, base, s, r) && OnlyNotes(r.output) && WaitForText(cfg, s, r).Continue?
    ensures Inv(cfg, WaitForText(cfg, s, r).turn)
  {
    var s' := WaitForText(cfg, s, r).turn;
    var c := Continuation(cfg, r.output);
    ContinuationFacts(cfg, r.output);
    var said := if !cfg.server && s.programInFlight && r.convenienceText != "" then [Note(Text, r.convenienceText)]
        else [];
    assert OnlyNotes(c + said);
    NotesFollow(base, c + said);
    assert Resent(cfg, s') == base + (c + said);
  }

  /** The resendable list after a round of function calls. */
  lemma RunToolsItems(cfg: Config, base: seq<Item>, s: Turn, seen: set<string>, r: Response)
    requires ValidResponse(r) && Added(cfg, base, s, r)
    requires Paired(base) && Ids(base) <= seen && s.seen == seen + Ids(r.output)
    requires Fresh(CallsIn(r.output), seen) && RunTools(cfg, s, r).Continue?
    ensures var s' := RunTools(cfg, s, r).turn; Paired(Resent(cfg, s')) && Ids(Resent(cfg, s')) <= s.seen
  {
    var s' := RunTools(cfg, s, r).turn;
    var round := Continuation(cfg, r.output) + OutputItems(CallsIn(r.output), r.results);
    var nudge := if s.sameTool >= cfg.maxSameTool then [ANTI_LOOP] else [];
    RoundFollows(cfg, base, seen, r);
    NotesFollow(base + round, nudge);
    Regroup(base, Continuation(cfg, r.output), OutputItems(CallsIn(r.output), r.results), nudge);
  }

  lemma Regroup(a: seq<Item>, b: seq<Item>, c: seq<Item>, d: seq<Item>)
    ensures (a + b) + c + d == a + (b + c) + d
  {
    assert (a + b) + c == a + (b + c);
  }

  /** The ledger after a round of function calls. */
  lemma RunToolsLedger(s: Turn, seen: set<string>, r: Response)
    requires ValidResponse(r) && Fresh(CallsIn(r.output), seen)
    requires DistinctExchanges(s.exchanges) && ExchangeIds(s.exchanges) <= seen && Ids(s.discovery) <= seen
    requires ExchangeIds(s.exchanges) !! Ids(s.discovery)
    ensures var ledger := s.exchanges + Executed(CallsIn(r.output), r.results);
            DistinctExchanges(ledger) && ExchangeIds(ledger) <= seen + Ids(r.output)
            && ExchangeIds(ledger) !! Ids(s.discovery)
  {
    CallIds(r.output);
    ExecutedFacts(CallsIn(r.output), r.results);
    FreshIds(r.output, seen);
    LedgerGrows(s.exchanges, Executed(CallsIn(r.output), r.results));
  }

  lemma RunToolsKeeps(cfg: Config, base: seq<Item>, s: Turn, seen: set<string>, r: Response)
    requires Acting(cfg, base, s, r) && Kept(base, s.(seen := seen)) && s.seen == seen + Ids(r.output)
    requires Fresh(CallsIn(r.output), seen) && RunTools(cfg, s, r).Continue?
    ensures Inv(cfg, RunTools(cfg, s, r).turn)
  {
    RunToolsItems(cfg, base, s, seen, r);
    RunToolsLedger(s, seen, r);
  }

  lemma AnswerKeeps(cfg: Config, base: seq<Item>, s: Turn, r: Response)
    requires Acting(cfg, base, s, r) && OnlyNotes(r.output) && Answer(cfg, s, r).Continue?
    ensures Inv(cfg, Answer(cfg, s, r).turn)
  {
    if r.finalText.Some? {
      var s1 := s.(programInFlight := false);
      assert Acting(cfg, base, s1, r);
      ConcludeKeeps(cfg, base, s1, r);
    } else if !s.programInFlight && r.convenienceText != "" {
      ConcludeKeeps(cfg, base, s, r);
    } else {
      WaitForTextKeeps(cfg, base, s, r);
    }
  }

  lemma NotedFrame(s: Turn, r: Response)
    ensures var s1 := Noted(s, r);
            s1 == s.(seen := s.seen + Ids(r.output), sameTool := s1.sameTool, lastTool := s1.lastTool)
  {
  }

  lemma KeptGrows(items: seq<Item>, s: Turn, seen: set<string>)
    requires Kept(items, s) && s.seen <= seen
    ensures Kept(items, s.(seen := seen))
  {
  }

  lemma NotedActs(cfg: Config, base: seq<Item>, s: Turn, r: Response)
    requires Acting(cfg, base, s, r)
    ensures var s1 := Noted(s, r);
            Acting(cfg, base, s1, r) && Kept(base, s1.(seen := s.seen)) && s1.seen == s.seen + Ids(r.output)
  {
    NotedFrame(s, r);
    KeptGrows(base, s, s.seen + Ids(r.output));
  }

  lemma DispatchKeeps(cfg: Config, base: seq<Item>, s: Turn, r: Response)
    requires Acting(cfg, base, s, r) && Dispatch(cfg, s, r).Continue?
    ensures Inv(cfg, Dispatch(cfg, s, r).turn)
  {
    var calls := CallsIn(r.output);
    if HasSearch(calls) {
      DiscoverKeeps(cfg, base, s, r);
    } else {
      var s1 := Noted(s, r);
      NotedActs(cfg, base, s, r);
      CallIds(r.output);
      if calls == [] {
        AnswerKeeps(cfg, base, s1, r);
      } else {
        RunToolsKeeps(cfg, base, s1, s.seen, r);
      }
    }
  }

  /** Notes, the discovery rounds, the replayed exchanges and the notice pair up. */
  lemma RebuildKeeps(cfg: Config, base: seq<Item>, s: Turn, r: Response)
    requires ValidResponse(r) && r.compaction.Compacted? && Kept(base, s)
    ensures var (items, done) := Rebuild(cfg, s, r); Paired(items) && Ids(items) <= s.seen
  {
    var (items, done) := Rebuild(cfg, s, r);
    var kept, summary := Replayed(cfg, s.exchanges), r.compaction.summary;
    NotesArePaired(r.compaction.context);
    if done {
      var note := if |kept| < |s.exchanges| && summary.Summary? then [Note(Text, summary.text)] else [];
      var opening := r.compaction.context + note;
      NotesArePaired(opening);
      PairedConcat(opening, s.discovery);
      IdsConcat(opening, s.discovery);
      ReplayedFacts(cfg, s.exchanges);
      PairsArePaired(kept);
      PairedConcat(opening + s.discovery, Pairs(kept));
      IdsConcat(opening + s.discovery, Pairs(kept));
      NotesFollow(opening + s.discovery + Pairs(kept), [NOTICE]);
    }
  }

  lemma CompactKeeps(cfg: Config, base: seq<Item>, s: Turn, r: Response)
    requires Acting(cfg, base, s, r) && Compact(cfg, s, r).Continue?
    ensures Inv(cfg, Compact(cfg, s, r).turn)
  {
    var s1 := s.(compacted := true);
    if r.compaction.CompactionFailed? {
      DispatchKeeps(cfg, base, s1, r);
    } else {
      RebuildKeeps(cfg, base, s, r);
      var (items, done) := Rebuild(cfg, s, r);
      var s2 := s1.(previousId := None, pending := items);
      if !done {
        DispatchKeeps(cfg, if cfg.server then base else items, s2, r);
      }
    }
  }

  lemma FailureKeeps(cfg: Config, s: Turn, f: Reply)
    requires f.Failure? && ValidReply(f) && Inv(cfg, s) && OnFailure(cfg, s, f).Continue?
    ensures Inv(cfg, OnFailure(cfg, s, f).turn)
  {
    NotesArePaired(f.context);
  }

  /** Every pass that continues keeps the resendable list paired. */
  lemma StepKeeps(cfg: Config, s: Turn, reply: Reply)
    requires ValidReply(reply) && Inv(cfg, s) && Step(cfg, s, reply).Continue?
    ensures Inv(cfg, Step(cfg, s, reply).turn)
  {
    match reply
    case Interrupted =>
    case Failure(_, _, _, _, _) => FailureKeeps(cfg, s, reply);
    case Received(r) =>
      var s1, base := Receive(cfg, s, r), Resent(cfg, s);
      assert Acting(cfg, base, s1, r);
      if Compacts(s1, r) {
        CompactKeeps(cfg, base, s1, r);
      } else {
        DispatchKeeps(cfg, base, s1, r);
      }
  }

  lemma OpeningKeeps(cfg: Config, context: seq<Item>, items: seq<Item>, previousId: Option<string>, goal: string)
    requires OnlyNotes(context) && OnlyNotes(items)
    ensures Inv(cfg, Opening(cfg, context, items, previousId, goal))
  {
    NotesArePaired(Resent(cfg, Opening(cfg, context, items, previousId, goal)));
  }
}
