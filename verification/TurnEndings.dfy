/** When a turn ends, and how: each ending by the fields of the reply and the counters of the turn. */
module TurnEndings {
  import opened Options
  import opened TurnItems
  import opened TurnState

  // ----- what a response holds -----

  predicate SomeCall(output: seq<Item>, search: bool) {
    exists i :: 0 <= i < |output| && output[i].Call? && output[i].search == search
  }

  predicate SomeNote(output: seq<Item>, kind: NoteKind) {
    exists i :: 0 <= i < |output| && output[i].Note? && output[i].kind == kind
  }

  /** Every call is a function call with an id and a name. */
  predicate AllNamed(output: seq<Item>) {
    forall i :: 0 <= i < |output| && output[i].Call? ==> !output[i].search && output[i].id != "" && output[i].name != ""
  }

  predicate SomeNamed(output: seq<Item>) {
    exists i :: 0 <= i < |output| && output[i].Call? && !output[i].search && output[i].id != "" && output[i].name != ""
  }

  /** No call id was used before, in the turn or in the response. */
  predicate NewIds(output: seq<Item>, seen: set<string>) {
    && (forall i :: 0 <= i < |output| && output[i].Call? ==> output[i].id !in seen)
    && (forall i, j :: 0 <= i < j < |output| && output[i].Call? && output[j].Call? ==> output[i].id != output[j].id)
  }

  predicate InProgram(s: Turn, r: Response) { s.programInFlight || SomeNote(r.output, Program) }

  predicate AllDirect(cfg: Config, exchanges: seq<Exchange>) {
    forall i :: 0 <= i < |exchanges| ==> exchanges[i].name in cfg.directReplay
  }

  /** Every exchange of the turn is replayed: each tool may be, and the budget holds them all. */
  predicate AllReplayed(cfg: Config, exchanges: seq<Exchange>) {
    && AllDirect(cfg, exchanges)
    && TotalSize(exchanges) <= cfg.replayBudget
  }

  /** The response sets off a compaction that goes through; its calls are dropped and the turn goes on. */
  predicate Restarts(cfg: Config, s: Turn, r: Response) {
    && r.overLimit && !InProgram(s, r) && s.iteration > 0 && !s.compacted && SomeNamed(r.output)
    && r.compaction.Compacted? && (r.compaction.summary.SummaryFailed? ==> AllReplayed(cfg, s.exchanges))
  }

  /** A search the provider was to leave to the client. */
  predicate SearchedElsewhere(cfg: Config, r: Response) { cfg.clientSearch && SomeNote(r.output, HostedSearch) }

  // ----- the endings -----

  predicate SoundSearch(cfg: Config, s: Turn, r: Response) {
    && cfg.clientSearch && !SomeCall(r.output, false) && NewIds(r.output, s.seen) && |r.results| <= cfg.maxSearchCalls
    && !r.discovery.Refused?
  }

  predicate SearchIsSpent(s: Turn, r: Response) {
    r.discovery.OverBudget? || (r.discovery.Found? && r.discovery.newFunctions == 0 && s.emptySearches >= 3)
  }

  predicate SoundCalls(s: Turn, r: Response) {
    AllNamed(r.output) && |r.results| <= 16 && NewIds(r.output, s.seen)
  }

  /** A server-mode turn can only go on from a completed response with an id. */
  predicate CanAnchor(cfg: Config, r: Response) { cfg.server ==> r.status.CompletedStatus? && Truthy(r.id) }

  predicate OnlyText(r: Response) { forall i :: 0 <= i < |r.output| ==> !r.output[i].Call? }

  predicate HasAnswer(s: Turn, r: Response) {
    r.finalText.Some? || (!InProgram(s, r) && r.convenienceText != "")
  }

  predicate BreaksShape(s: Turn, r: Response) { r.finalText.Some? && InProgram(s, r) && r.shapeError }

  /** The answer is the final text, the convenience text for want of it, or what the tools' results settle. */
  predicate EndsAnswered(cfg: Config, s: Turn, r: Response, text: string) {
    && !SearchedElsewhere(cfg, r) && !SomeCall(r.output, true)
    && if SomeCall(r.output, false) then
         SoundCalls(s, r) && CanAnchor(cfg, r) && !r.toolsThrew && r.deterministicAnswer == Some(text) && text != ""
       else
         && HasAnswer(s, r) && !BreaksShape(s, r) && (r.outcomesPending ==> s.nudges >= 2)
         && text == if r.finalText.Some? && r.finalText.value != "" then r.finalText.value else r.convenienceText
  }

  predicate EndsProtocol(cfg: Config, s: Turn, r: Response) {
    SearchedElsewhere(cfg, r) || (SomeCall(r.output, true) && !SoundSearch(cfg, s, r))
  }

  predicate EndsSearchBudget(cfg: Config, s: Turn, r: Response) {
    && !SearchedElsewhere(cfg, r)
    && SomeCall(r.output, true) && SoundSearch(cfg, s, r) && SearchIsSpent(s, r)
  }

  predicate EndsStateLost(cfg: Config, s: Turn, r: Response) {
    && !SearchedElsewhere(cfg, r) && cfg.server
    && if SomeCall(r.output, true) then SoundSearch(cfg, s, r) && !SearchIsSpent(s, r) && !Truthy(r.id)
       else SomeCall(r.output, false) && SoundCalls(s, r) && !CanAnchor(cfg, r)
  }

  predicate EndsOrchestration(cfg: Config, s: Turn, r: Response) {
    && !SearchedElsewhere(cfg, r) && !SomeCall(r.output, true)
    && if SomeCall(r.output, false) then !SoundCalls(s, r) || (CanAnchor(cfg, r) && r.toolsThrew)
       else BreaksShape(s, r)
  }

  /** Neither calls nor text, and no way to ask again. */
  predicate EndsEmpty(cfg: Config, s: Turn, r: Response) {
    && !SearchedElsewhere(cfg, r) && OnlyText(r) && !HasAnswer(s, r)
    && if cfg.server then !Truthy(r.id) || (!r.searchPaths && s.emptyRetries >= 2)
       else r.output == [] && r.convenienceText == ""
  }

  predicate SomeFunctionOutput(items: seq<Item>) {
    exists i :: 0 <= i < |items| && items[i].Output? && !items[i].search
  }

  /** A failed request that may neither be sent again as it was nor start over. */
  predicate EndsFailed(cfg: Config, s: Turn, f: Reply)
    requires f.Failure?
  {
    && !(f.transient && !f.deltas && s.transientRetries < cfg.maxTransientRetries)
    && !(s.recoveries < 3 && Truthy(s.previousId)
         && (f.stateMissing || (f.stateMismatch && SomeFunctionOutput(s.pending))))
  }

  /** How a look at the response's searches, calls and texts ends the turn. */
  predicate LookEnds(cfg: Config, s: Turn, r: Response, ending: Ending) {
    match ending
    case Answered(text) => EndsAnswered(cfg, s, r, text)
    case ProviderFailure => EndsEmpty(cfg, s, r)
    case ToolDiscoveryProtocol => EndsProtocol(cfg, s, r)
    case ToolDiscoveryBudget => EndsSearchBudget(cfg, s, r)
    case ToolStateFailure => EndsStateLost(cfg, s, r)
    case OrchestrationFailure => EndsOrchestration(cfg, s, r)
    case _ => false
  }

  /** All the ways to each ending; for want of iterations a turn only ends at the loop head. */
  predicate EndsAs(cfg: Config, s: Turn, reply: Reply, ending: Ending) {
    match reply
    case Interrupted => ending == Cancelled
    case Failure(_, _, _, _, _) => ending == ProviderFailure && EndsFailed(cfg, s, reply)
    case Received(r) =>
      if r.status.OtherStatus? then ending == ProviderFailure
      else !Restarts(cfg, s, r) && LookEnds(cfg, s, r, ending)
  }

  // ----- the calls of a response, and its output items -----

  lemma CallAt(output: seq<Item>, i: nat) returns (k: nat)
    requires i < |output| && output[i].Call?
    ensures k < |CallsIn(output)| && CallsIn(output)[k] == output[i]
  {
    k := IsCallIn(output, i);
  }

  lemma CallFrom(output: seq<Item>, k: nat) returns (i: nat)
    requires k < |CallsIn(output)|
    ensures i < |output| && output[i] == CallsIn(output)[k] && output[i].Call?
  {
    CallsInMembers(output);
    assert CallsIn(output)[k] in CallsIn(output);
    i :| 0 <= i < |output| && output[i] == CallsIn(output)[k];
  }

  lemma KindsShow(output: seq<Item>)
    ensures HasSearch(CallsIn(output)) <==> SomeCall(output, true)
    ensures HasFunction(CallsIn(output)) <==> SomeCall(output, false)
  {
    var calls := CallsIn(output);
    if k :| 0 <= k < |calls| && calls[k].Call? && calls[k].search { var i := CallFrom(output, k); }
    if k :| 0 <= k < |calls| && calls[k].Call? && !calls[k].search { var i := CallFrom(output, k); }
    if i :| 0 <= i < |output| && output[i].Call? && output[i].search { var k := CallAt(output, i); }
    if i :| 0 <= i < |output| && output[i].Call? && !output[i].search { var k := CallAt(output, i); }
  }

  lemma NamesShow(output: seq<Item>)
    ensures HasUsable(CallsIn(output)) <==> SomeNamed(output)
    ensures AllUsable(CallsIn(output)) <==> AllNamed(output)
  {
    var calls := CallsIn(output);
    if k :| 0 <= k < |calls| && Usable(calls[k]) { var i := CallFrom(output, k); }
    if i :| 0 <= i < |output| && output[i].Call? && !output[i].search && output[i].id != "" && output[i].name != "" {
      var k := CallAt(output, i);
    }
    if k :| 0 <= k < |calls| && !Usable(calls[k]) { var i := CallFrom(output, k); }
    if i :| 0 <= i < |output| && output[i].Call? && !Usable(output[i]) { var k := CallAt(output, i); }
  }

  lemma NoneShow(output: seq<Item>)
    ensures CallsIn(output) == [] <==> !SomeCall(output, true) && !SomeCall(output, false)
  {
    if CallsIn(output) != [] { var i := CallFrom(output, 0); }
    if i :| 0 <= i < |output| && output[i].Call? { var k := CallAt(output, i); }
  }

  lemma CallsShow(output: seq<Item>)
    ensures HasSearch(CallsIn(output)) <==> SomeCall(output, true)
    ensures HasFunction(CallsIn(output)) <==> SomeCall(output, false)
    ensures HasUsable(CallsIn(output)) <==> SomeNamed(output)
    ensures AllUsable(CallsIn(output)) <==> AllNamed(output)
    ensures CallsIn(output) == [] <==> !SomeCall(output, true) && !SomeCall(output, false)
  {
    KindsShow(output);
    NamesShow(output);
    NoneShow(output);
  }

  lemma {:induction false} DistinctCalls(items: seq<Item>)
    requires DistinctIds(items)
    ensures DistinctIds(CallsIn(items))
  {
    if items != [] {
      var n := |items| - 1;
      var last := if items[n].Call? then [items[n]] else [];
      assert DistinctIds(items[..n]);
      DistinctCalls(items[..n]);
      CallsSnoc(items);
      forall k | 0 <= k < |CallsIn(items[..n])| && items[n].Call? ensures CallsIn(items[..n])[k].id != items[n].id {
        var i := CallFrom(items[..n], k);
      }
    }
  }

  lemma FreshIff(output: seq<Item>, seen: set<string>)
    ensures Fresh(CallsIn(output), seen) <==> NewIds(output, seen)
  {
    var calls := CallsIn(output);
    if NewIds(output, seen) {
      DistinctCalls(output);
      forall k | 0 <= k < |calls| && calls[k].Call? ensures calls[k].id !in seen {
        var i := CallFrom(output, k);
      }
    }
    if Fresh(calls, seen) {
      CallsInDistinct(output);
      forall i | 0 <= i < |output| && output[i].Call? ensures output[i].id !in seen {
        var k := CallAt(output, i);
      }
    }
  }

  // ----- branch by branch -----

  lemma DiscoverEnds(cfg: Config, s: Turn, r: Response, ending: Ending)
    requires ValidResponse(r) && SomeCall(r.output, true)
    ensures Discover(cfg, s, r) == Stop(ending) <==>
              match ending
              case ToolDiscoveryProtocol => !SoundSearch(cfg, s, r)
              case ToolDiscoveryBudget => SoundSearch(cfg, s, r) && SearchIsSpent(s, r)
              case ToolStateFailure => SoundSearch(cfg, s, r) && !SearchIsSpent(s, r) && cfg.server && !Truthy(r.id)
              case _ => false
  {
    CallsShow(r.output);
    FreshIff(r.output, s.seen);
    assert BadSearch(cfg, s, r) <==> !SoundSearch(cfg, s, r);
  }

  lemma RunToolsEnds(cfg: Config, s: Turn, r: Response, ending: Ending)
    requires ValidResponse(r)
    ensures RunTools(cfg, s, r) == Stop(ending) <==>
              match ending
              case OrchestrationFailure => r.toolsThrew
              case Answered(text) => !r.toolsThrew && r.deterministicAnswer == Some(text) && text != ""
              case _ => false
  {
  }

  lemma AnswerEnds(cfg: Config, s: Turn, r: Response, ending: Ending)
    requires CallsIn(r.output) == [] && s.programInFlight == InProgram(s, r)
    ensures Answer(cfg, s, r) == Stop(ending) <==>
              match ending
              case OrchestrationFailure => BreaksShape(s, r)
              case Answered(text) =>
                && HasAnswer(s, r) && !BreaksShape(s, r) && (r.outcomesPending ==> s.nudges >= 2)
                && text == if r.finalText.Some? && r.finalText.value != "" then r.finalText.value else r.convenienceText
              case ProviderFailure =>
                && !HasAnswer(s, r)
                && if cfg.server then !Truthy(r.id) || (!r.searchPaths && s.emptyRetries >= 2)
                   else r.output == [] && r.convenienceText == ""
              case _ => false
  {
  }

  lemma DispatchEnds(cfg: Config, s: Turn, r: Response, ending: Ending)
    requires ValidResponse(r) && s.programInFlight == InProgram(s, r)
    ensures Dispatch(cfg, s, r) == Stop(ending) <==> LookEnds(cfg, s, r, ending)
  {
    CallsShow(r.output);
    FreshIff(r.output, s.seen);
    if SearchedElsewhere(cfg, r) {
    } else if SomeCall(r.output, true) {
      DiscoverEnds(cfg, s, r, ending);
    } else if SomeCall(r.output, false) {
      CallsEnd(cfg, s, r, ending);
    } else {
      AnswerEnds(cfg, Noted(s, r), r, ending);
      NotedAsks(s, r);
    }
  }

  lemma NotedAsks(s: Turn, r: Response)
    ensures var s1 := Noted(s, r);
            s1.programInFlight == s.programInFlight && s1.nudges == s.nudges && s1.emptyRetries == s.emptyRetries
  {
  }

  lemma CallsEnd(cfg: Config, s: Turn, r: Response, ending: Ending)
    requires ValidResponse(r) && !SearchedElsewhere(cfg, r) && !SomeCall(r.output, true) && SomeCall(r.output, false)
    ensures Dispatch(cfg, s, r) == Stop(ending) <==> LookEnds(cfg, s, r, ending)
  {
    CallsShow(r.output);
    FreshIff(r.output, s.seen);
    RunToolsEnds(cfg, Noted(s, r), r, ending);
  }

  // ----- a compaction that goes through -----

  lemma {:induction false} ReplayableAll(cfg: Config, exchanges: seq<Exchange>)
    ensures |Replayable(cfg, exchanges)| <= |exchanges|
    ensures if AllDirect(cfg, exchanges) then Replayable(cfg, exchanges) == exchanges
            else |Replayable(cfg, exchanges)| < |exchanges|
  {
    if exchanges != [] {
      var n := |exchanges| - 1;
      ReplayableAll(cfg, exchanges[..n]);
      ReplayableSnoc(cfg, exchanges[..n], exchanges[n]);
      assert exchanges == exchanges[..n] + [exchanges[n]];
      assert AllDirect(cfg, exchanges) <==> AllDirect(cfg, exchanges[..n]) && exchanges[n].name in cfg.directReplay;
    }
  }

  lemma ReplayableSnoc(cfg: Config, init: seq<Exchange>, e: Exchange)
    ensures Replayable(cfg, init + [e]) == Replayable(cfg, init) + if e.name in cfg.directReplay then [e] else []
  {
    assert (init + [e])[..|init|] == init;
  }

  lemma {:induction false} SuffixIsSmaller(exchanges: seq<Exchange>, k: nat)
    requires k <= |exchanges|
    ensures TotalSize(exchanges[k..]) <= TotalSize(exchanges)
  {
    if k > 0 {
      assert exchanges[1..][k - 1..] == exchanges[k..];
      SuffixIsSmaller(exchanges[1..], k - 1);
    } else {
      assert exchanges[0..] == exchanges;
    }
  }

  lemma ReplayedAll(cfg: Config, exchanges: seq<Exchange>)
    ensures |Replayed(cfg, exchanges)| < |exchanges| <==> !AllReplayed(cfg, exchanges)
  {
    var direct := Replayable(cfg, exchanges);
    ReplayableAll(cfg, exchanges);
    assert direct[|direct|..] == [];
    var from := ReplayFrom(direct, cfg.replayBudget, |direct|);
    if from > 0 {
      SuffixIsSmaller(direct, from - 1);
    } else {
      assert direct[0..] == direct;
    }
  }

  lemma RestartsIff(cfg: Config, s: Turn, r: Response)
    requires ValidResponse(r)
    ensures Compacts(Receive(cfg, s, r), r) && r.compaction.Compacted? && Rebuild(cfg, Receive(cfg, s, r), r).1
            <==> Restarts(cfg, s, r)
  {
    CallsShow(r.output);
    ReplayedAll(cfg, s.exchanges);
  }

  // ----- one pass -----

  lemma LooksAlike(cfg: Config, s: Turn, s1: Turn, r: Response, ending: Ending)
    requires s1.seen == s.seen && s1.emptySearches == s.emptySearches && s1.nudges == s.nudges
    requires s1.emptyRetries == s.emptyRetries && s1.programInFlight == InProgram(s, r)
    ensures LookEnds(cfg, s1, r, ending) <==> LookEnds(cfg, s, r, ending)
  {
  }

  lemma ResponseEnds(cfg: Config, s: Turn, r: Response, ending: Ending)
    requires ValidResponse(r) && !r.status.OtherStatus?
    ensures OnResponse(cfg, s, r) == Stop(ending) <==> !Restarts(cfg, s, r) && LookEnds(cfg, s, r, ending)
  {
    var s1 := Receive(cfg, s, r);
    RestartsIff(cfg, s, r);
    if !Restarts(cfg, s, r) {
      var s2 := if !Compacts(s1, r) then s1
                else if r.compaction.CompactionFailed? then s1.(compacted := true)
                else s1.(compacted := true, previousId := None, pending := r.compaction.context);
      assert OnResponse(cfg, s, r) == Dispatch(cfg, s2, r);
      DispatchEnds(cfg, s2, r, ending);
      LooksAlike(cfg, s, s2, r, ending);
    }
  }

  /** A pass ends the turn in each of the ways listed, and in no other. */
  lemma EndingIff(cfg: Config, s: Turn, reply: Reply, ending: Ending)
    requires ValidReply(reply)
    ensures Step(cfg, s, reply) == Stop(ending) <==> EndsAs(cfg, s, reply, ending)
  {
    if reply.Received? && !reply.response.status.OtherStatus? { ResponseEnds(cfg, s, reply.response, ending); }
  }
}
