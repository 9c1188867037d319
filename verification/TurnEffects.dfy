/** What a pass that lets the turn go on leaves behind: its counters, and what the next request holds. */
module TurnEffects {
  import opened Options
  import opened TurnEndings
  import opened TurnItems
  import opened TurnRuns
  import opened TurnState

  /** A response whose searches, calls and texts were looked at. */
  predicate LookedAt(cfg: Config, s: Turn, reply: Reply) { reply.Received? && !Restarts(cfg, s, reply.response) }

  predicate Searching(cfg: Config, s: Turn, reply: Reply) {
    LookedAt(cfg, s, reply) && SomeCall(reply.response.output, true)
  }

  predicate Calling(cfg: Config, s: Turn, reply: Reply) {
    LookedAt(cfg, s, reply) && SomeCall(reply.response.output, false)
  }

  /** A text that would have been the answer, but for an outcome that is still pending. */
  predicate Nudging(s: Turn, reply: Reply) {
    reply.Received? && OnlyText(reply.response) && HasAnswer(s, reply.response)
  }

  predicate Waiting(s: Turn, reply: Reply) {
    reply.Received? && OnlyText(reply.response) && !HasAnswer(s, reply.response)
  }

  predicate StartsCompacting(s: Turn, reply: Reply) {
    && reply.Received? && reply.response.overLimit && !InProgram(s, reply.response) && s.iteration > 0
    && SomeNamed(reply.response.output)
  }

  // ----- the counters -----

  predicate Counted(cfg: Config, s: Turn, reply: Reply, t: Turn) {
    && t.transientRetries + t.recoveries == s.transientRetries + s.recoveries + (if reply.Failure? then 1 else 0)
    && t.nudges == s.nudges + (if Nudging(s, reply) then 1 else 0)
    && t.emptySearches == (if !Searching(cfg, s, reply) then s.emptySearches
                           else if reply.response.discovery == Found(0) then s.emptySearches + 1 else 0)
    && t.emptyRetries == (if Calling(cfg, s, reply) then 0
                          else if Waiting(s, reply) && cfg.server && !reply.response.searchPaths then s.emptyRetries + 1
                          else s.emptyRetries)
  }

  predicate Flagged(s: Turn, reply: Reply, t: Turn) {
    && t.compacted == (s.compacted || StartsCompacting(s, reply))
    && t.programInFlight == (if !reply.Received? then s.programInFlight
                             else InProgram(s, reply.response)
                                  && !(OnlyText(reply.response) && reply.response.finalText.Some?))
  }

  /** A request goes on with a chain of tool calls exactly when the response before it held calls. */
  predicate Chained(s: Turn, reply: Reply, t: Turn) {
    t.toolChain == if t.iteration == s.iteration then s.toolChain else reply.Received? && !OnlyText(reply.response)
  }

  // ----- the same tool again and again -----

  predicate CallsTool(output: seq<Item>, name: string) {
    exists i :: 0 <= i < |output| && output[i].Call? && output[i].name == name
  }

  /** How often one tool has been called alone by now, without a break and since the last note about it. */
  function Streak(s: Turn, r: Response): nat {
    if |r.results| != 1 then 0
    else if s.lastTool.Some? && CallsTool(r.output, s.lastTool.value) then s.sameTool + 1 else 1
  }

  predicate Streaked(cfg: Config, s: Turn, reply: Reply, t: Turn) {
    if !Calling(cfg, s, reply) then t.lastTool == s.lastTool && t.sameTool == s.sameTool
    else
      var r := reply.response;
      && t.sameTool == (if Streak(s, r) >= cfg.maxSameTool then 0 else Streak(s, r))
      && (if |r.results| == 1 then t.lastTool.Some? && CallsTool(r.output, t.lastTool.value) else t.lastTool.None?)
  }

  // ----- what is sent next -----

  /** The k-th output has the text of the k-th result, under the id of the k-th call. */
  predicate OutputsFor(r: Response, fed: seq<Item>) {
    && |fed| == |r.results| == |CallsIn(r.output)|
    && forall k :: 0 <= k < |fed| ==>
         fed[k] == Output(SomeCall(r.output, true), CallsIn(r.output)[k].id, r.results[k].text)
  }

  /** The items that answer the response. */
  predicate Answering(cfg: Config, s: Turn, r: Response, fed: seq<Item>) {
    if SomeCall(r.output, false) then
      && |fed| == |r.results| + (if Streak(s, r) >= cfg.maxSameTool then 1 else 0)
      && OutputsFor(r, fed[..|r.results|]) && (|fed| > |r.results| ==> fed[|r.results|] == ANTI_LOOP)
    else if SomeCall(r.output, true) then OutputsFor(r, fed)
    else if HasAnswer(s, r) then fed == [Note(Text, r.nudge)]
    else fed == if !cfg.server && InProgram(s, r) && r.convenienceText != ""
                then [Note(Text, r.convenienceText)] else []
  }

  /** The list a stateless request goes on from: the fresh context alone after a compaction that failed late. */
  function BaseFor(s: Turn, r: Response): seq<Item> {
    if StartsCompacting(s, Received(r)) && !s.compacted && r.compaction.Compacted? then r.compaction.context
    else s.pending
  }

  /** In server mode the answer alone, under the response's id; else all there was, the response and the answer. */
  predicate Sends(cfg: Config, s: Turn, r: Response, fed: seq<Item>, t: Turn) {
    if cfg.server then t.pending == fed && t.previousId == r.id
    else t.pending == BaseFor(s, r) + Continuation(cfg, r.output) + fed && (s.previousId.None? ==> t.previousId.None?)
  }

  /** In server mode all of it is kept for a restart, the response of a nudge twice. */
  predicate Keeps(cfg: Config, s: Turn, r: Response, fed: seq<Item>, t: Turn) {
    t.recovery == if !cfg.server then s.recovery
                  else if Nudging(s, Received(r))
                  then s.recovery + Continuation(cfg, r.output) + (Continuation(cfg, r.output) + fed)
                  else s.recovery + Continuation(cfg, r.output) + fed
  }

  predicate Remembered(cfg: Config, s: Turn, r: Response, fed: seq<Item>, t: Turn)
    requires ValidResponse(r)
  {
    && t.seen == s.seen + Ids(r.output)
    && t.exchanges == s.exchanges + (if SomeCall(r.output, false) then Executed(CallsIn(r.output), r.results) else [])
    && t.discovery == s.discovery + (if SomeCall(r.output, true) && r.discovery.Found? && r.discovery.newFunctions > 0
                                     then Continuation(cfg, r.output) + fed else [])
  }

  // ----- branch by branch: from the state the response is looked at in -----

  /** The same, from the state in which the received response is looked at. */
  predicate Acted(cfg: Config, s: Turn, r: Response, fed: seq<Item>, t: Turn)
    requires ValidResponse(r)
  {
    && (if cfg.server then t.pending == fed && t.previousId == r.id
        else t.pending == s.pending + Continuation(cfg, r.output) + fed
             && (s.previousId.None? ==> t.previousId.None?))
    && t.recovery == (if !cfg.server then s.recovery
                      else if OnlyText(r) && HasAnswer(s, r) then s.recovery + (Continuation(cfg, r.output) + fed)
                      else s.recovery + fed)
    && Remembered(cfg, s, r, fed, t)
  }

  lemma DiscoverActs(cfg: Config, s: Turn, r: Response) returns (fed: seq<Item>)
    requires ValidResponse(r) && SomeCall(r.output, true) && Discover(cfg, s, r).Continue?
    ensures var t := Discover(cfg, s, r).turn;
            !SomeCall(r.output, false) && OutputsFor(r, fed) && Acted(cfg, s, r, fed, t)
  {
    CallsShow(r.output);
    fed := OutputItems(CallsIn(r.output), r.results);
    var i :| 0 <= i < |r.output| && r.output[i].Call? && r.output[i].search;
    assert !OnlyText(r);
    forall k | 0 <= k < |fed| ensures CallsIn(r.output)[k].search {
      var i := CallFrom(r.output, k);
    }
  }

  lemma ToolOutputs(r: Response)
    requires ValidResponse(r) && !SomeCall(r.output, true)
    ensures OutputsFor(r, OutputItems(CallsIn(r.output), r.results))
  {
    CallsShow(r.output);
    forall k | 0 <= k < |CallsIn(r.output)| ensures !CallsIn(r.output)[k].search {
      var i := CallFrom(r.output, k);
    }
  }

  lemma RunToolsActs(cfg: Config, s: Turn, s1: Turn, r: Response) returns (fed: seq<Item>)
    requires ValidResponse(r) && SomeCall(r.output, false) && !SomeCall(r.output, true)
    requires s1 == Noted(s, r) && RunTools(cfg, s1, r).Continue?
    ensures var t := RunTools(cfg, s1, r).turn;
            Acted(cfg, s, r, fed, t) && |fed| >= |r.results| && OutputsFor(r, fed[..|r.results|])
            && fed == fed[..|r.results|] + (if s1.sameTool >= cfg.maxSameTool then [ANTI_LOOP] else [])
  {
    CallsShow(r.output);
    ToolOutputs(r);
    NotedKeeps(s, r);
    var outputs := OutputItems(CallsIn(r.output), r.results);
    fed := outputs + if s1.sameTool >= cfg.maxSameTool then [ANTI_LOOP] else [];
    assert fed[..|r.results|] == outputs;
    ToolsFed(cfg, s1, r, fed);
    var i :| 0 <= i < |r.output| && r.output[i].Call? && !r.output[i].search;
    assert !OnlyText(r);
  }

  lemma NotedKeeps(s: Turn, r: Response)
    ensures var s1 := Noted(s, r);
            s1 == s.(seen := s.seen + Ids(r.output), sameTool := s1.sameTool, lastTool := s1.lastTool)
  {
  }

  lemma ToolsFed(cfg: Config, s: Turn, r: Response, fed: seq<Item>)
    requires ValidResponse(r) && RunTools(cfg, s, r).Continue?
    requires fed == OutputItems(CallsIn(r.output), r.results)
                    + if s.sameTool >= cfg.maxSameTool then [ANTI_LOOP] else []
    ensures var t := RunTools(cfg, s, r).turn;
            && (if cfg.server then t.pending == fed && t.previousId == r.id
                else t.pending == s.pending + Continuation(cfg, r.output) + fed && t.previousId.None?)
            && t.recovery == (if cfg.server then s.recovery + fed else s.recovery)
            && t.seen == s.seen && t.discovery == s.discovery
            && t.exchanges == s.exchanges + Executed(CallsIn(r.output), r.results)
  {
    var outputs := OutputItems(CallsIn(r.output), r.results);
    var note := if s.sameTool >= cfg.maxSameTool then [ANTI_LOOP] else [];
    var c := Continuation(cfg, r.output);
    assert s.pending + (c + outputs) + note == s.pending + c + (outputs + note);
    assert s.recovery + outputs + note == s.recovery + (outputs + note);
  }

  lemma ConcludeActs(cfg: Config, s: Turn, r: Response)
    requires Conclude(cfg, s, r).Continue?
    ensures var t, fed := Conclude(cfg, s, r).turn, [Note(Text, r.nudge)];
            && (if cfg.server then t.pending == fed && t.previousId == r.id
                else t.pending == s.pending + Continuation(cfg, r.output) + fed && t.previousId == s.previousId)
            && t.recovery == (if cfg.server then s.recovery + (Continuation(cfg, r.output) + fed) else s.recovery)
            && t.seen == s.seen && t.discovery == s.discovery && t.exchanges == s.exchanges
  {
    var fed, c := [Note(Text, r.nudge)], Continuation(cfg, r.output);
    assert s.recovery + c + fed == s.recovery + (c + fed);
  }

  lemma WaitActs(cfg: Config, s: Turn, r: Response)
    requires WaitForText(cfg, s, r).Continue?
    ensures var t := WaitForText(cfg, s, r).turn;
            var fed := if !cfg.server && s.programInFlight && r.convenienceText != ""
                       then [Note(Text, r.convenienceText)] else [];
            && (if cfg.server then t.pending == fed && t.previousId == r.id
                else t.pending == s.pending + Continuation(cfg, r.output) + fed && t.previousId.None?)
            && t.recovery == s.recovery && t.seen == s.seen && t.discovery == s.discovery && t.exchanges == s.exchanges
  {
  }

  lemma AnswerActs(cfg: Config, s: Turn, s1: Turn, r: Response) returns (fed: seq<Item>)
    requires ValidResponse(r) && CallsIn(r.output) == [] && s.programInFlight == InProgram(s, r)
    requires s1 == Noted(s, r) && Answer(cfg, s1, r).Continue?
    ensures Answering(cfg, s, r, fed) && Acted(cfg, s, r, fed, Answer(cfg, s1, r).turn)
  {
    CallsShow(r.output);
    NotedKeeps(s, r);
    assert OnlyText(r);
    if r.finalText.Some? {
      ConcludeActs(cfg, s1.(programInFlight := false), r);
      fed := [Note(Text, r.nudge)];
    } else if !s1.programInFlight && r.convenienceText != "" {
      ConcludeActs(cfg, s1, r);
      fed := [Note(Text, r.nudge)];
    } else {
      WaitActs(cfg, s1, r);
      fed := if !cfg.server && s.programInFlight && r.convenienceText != ""
             then [Note(Text, r.convenienceText)] else [];
      assert s.recovery + fed == s.recovery || !cfg.server;
    }
  }

  /** What the look does to the counters. */
  predicate Ticked(cfg: Config, s: Turn, r: Response, t: Turn) {
    && t.transientRetries == s.transientRetries && t.recoveries == s.recoveries && t.compacted == s.compacted
    && t.nudges == s.nudges + (if OnlyText(r) && HasAnswer(s, r) then 1 else 0)
    && t.emptySearches == (if !SomeCall(r.output, true) then s.emptySearches
                           else if r.discovery == Found(0) then s.emptySearches + 1 else 0)
    && t.emptyRetries == (if SomeCall(r.output, false) then 0
                          else if OnlyText(r) && !HasAnswer(s, r) && cfg.server && !r.searchPaths
                          then s.emptyRetries + 1
                          else s.emptyRetries)
    && t.programInFlight == (s.programInFlight && !(OnlyText(r) && r.finalText.Some?))
    && t.toolChain == !OnlyText(r)
  }

  lemma DiscoverTicks(cfg: Config, s: Turn, r: Response)
    requires ValidResponse(r) && SomeCall(r.output, true) && Discover(cfg, s, r).Continue?
    ensures var t := Discover(cfg, s, r).turn;
            !SomeCall(r.output, false) && Ticked(cfg, s, r, t) && t.sameTool == s.sameTool && t.lastTool == s.lastTool
  {
    CallsShow(r.output);
    var i :| 0 <= i < |r.output| && r.output[i].Call? && r.output[i].search;
    assert !OnlyText(r);
  }

  lemma NotedTicks(cfg: Config, s: Turn, r: Response)
    requires ValidResponse(r) && SomeCall(r.output, false)
    ensures var s1 := Noted(s, r);
            s1 == s.(seen := s.seen + Ids(r.output), sameTool := s1.sameTool, lastTool := s1.lastTool)
            && s1.sameTool == Streak(s, r)
            && if |r.results| == 1 then s1.lastTool.Some? && CallsTool(r.output, s1.lastTool.value)
               else s1.lastTool.None?
  {
    CallsShow(r.output);
    NotedKeeps(s, r);
    if |r.results| == 1 { SoleCall(r.output); }
  }

  /** A response with one call: the tool it calls. */
  lemma SoleCall(output: seq<Item>)
    requires |CallsIn(output)| == 1
    ensures forall name :: CallsTool(output, name) <==> name == CallsIn(output)[0].name
  {
    var i := CallFrom(output, 0);
    forall name | CallsTool(output, name) ensures name == CallsIn(output)[0].name {
      var j :| 0 <= j < |output| && output[j].Call? && output[j].name == name;
      var k := CallAt(output, j);
    }
  }

  lemma RunToolsTicks(cfg: Config, s: Turn, s1: Turn, r: Response)
    requires ValidResponse(r) && SomeCall(r.output, false) && !SomeCall(r.output, true)
    requires s1 == Noted(s, r) && RunTools(cfg, s1, r).Continue?
    ensures var t := RunTools(cfg, s1, r).turn;
            Ticked(cfg, s, r, t)
            && t.sameTool == (if Streak(s, r) >= cfg.maxSameTool then 0 else Streak(s, r))
            && if |r.results| == 1 then t.lastTool.Some? && CallsTool(r.output, t.lastTool.value) else t.lastTool.None?
  {
    NotedTicks(cfg, s, r);
    var i :| 0 <= i < |r.output| && r.output[i].Call? && !r.output[i].search;
    assert !OnlyText(r);
  }

  lemma ConcludeTicks(cfg: Config, s: Turn, r: Response)
    requires Conclude(cfg, s, r).Continue?
    ensures var t := Conclude(cfg, s, r).turn;
            t == s.(iteration := s.iteration + 1, toolChain := false, nudges := s.nudges + 1,
                    previousId := t.previousId, pending := t.pending, recovery := t.recovery)
  {
  }

  lemma WaitTicks(cfg: Config, s: Turn, r: Response)
    requires WaitForText(cfg, s, r).Continue?
    ensures var t := WaitForText(cfg, s, r).turn;
            t == s.(iteration := s.iteration + 1, toolChain := false, previousId := t.previousId, pending := t.pending,
                    emptyRetries := s.emptyRetries + if cfg.server && !r.searchPaths then 1 else 0)
  {
  }

  lemma AnswerTicks(cfg: Config, s: Turn, s1: Turn, r: Response)
    requires ValidResponse(r) && CallsIn(r.output) == [] && s.programInFlight == InProgram(s, r)
    requires s1 == Noted(s, r) && Answer(cfg, s1, r).Continue?
    ensures var t := Answer(cfg, s1, r).turn;
            Ticked(cfg, s, r, t) && t.sameTool == s.sameTool && t.lastTool == s.lastTool
  {
    CallsShow(r.output);
    assert OnlyText(r) && s1 == s.(seen := s.seen + Ids(r.output));
    if r.finalText.Some? {
      ConcludeTicks(cfg, s1.(programInFlight := false), r);
    } else if !s1.programInFlight && r.convenienceText != "" {
      ConcludeTicks(cfg, s1, r);
    } else {
      WaitTicks(cfg, s1, r);
    }
  }

  predicate StreakedFrom(cfg: Config, s: Turn, r: Response, t: Turn) {
    if !SomeCall(r.output, false) then t.lastTool == s.lastTool && t.sameTool == s.sameTool
    else
      && t.sameTool == (if Streak(s, r) >= cfg.maxSameTool then 0 else Streak(s, r))
      && (if |r.results| == 1 then t.lastTool.Some? && CallsTool(r.output, t.lastTool.value) else t.lastTool.None?)
  }

  predicate Does(cfg: Config, s: Turn, r: Response, fed: seq<Item>, t: Turn)
    requires ValidResponse(r)
  {
    Answering(cfg, s, r, fed) && Acted(cfg, s, r, fed, t) && Ticked(cfg, s, r, t) && StreakedFrom(cfg, s, r, t)
  }

  lemma DispatchDoes(cfg: Config, s: Turn, r: Response) returns (fed: seq<Item>)
    requires ValidResponse(r) && s.programInFlight == InProgram(s, r) && Dispatch(cfg, s, r).Continue?
    ensures Does(cfg, s, r, fed, Dispatch(cfg, s, r).turn)
  {
    CallsShow(r.output);
    if SomeCall(r.output, true) {
      DiscoverTicks(cfg, s, r);
      fed := DiscoverActs(cfg, s, r);
    } else if SomeCall(r.output, false) {
      assert Dispatch(cfg, s, r) == RunTools(cfg, Noted(s, r), r);
      fed := RunToolsActs(cfg, s, Noted(s, r), r);
      RunToolsTicks(cfg, s, Noted(s, r), r);
      NotedTicks(cfg, s, r);
    } else {
      assert Dispatch(cfg, s, r) == Answer(cfg, Noted(s, r), r);
      fed := AnswerActs(cfg, s, Noted(s, r), r);
      AnswerTicks(cfg, s, Noted(s, r), r);
    }
  }

  // ----- one pass -----

  /** The state in which a received response is looked at. */
  function LookedIn(cfg: Config, s: Turn, r: Response): Turn
    requires ValidResponse(r)
  {
    var s1 := Receive(cfg, s, r);
    if !Compacts(s1, r) then s1
    else if r.compaction.CompactionFailed? then s1.(compacted := true)
    else s1.(compacted := true, previousId := None, pending := r.compaction.context)
  }

  lemma LooksIn(cfg: Config, s: Turn, r: Response)
    requires ValidResponse(r) && !r.status.OtherStatus? && !Restarts(cfg, s, r)
    ensures OnResponse(cfg, s, r) == Dispatch(cfg, LookedIn(cfg, s, r), r)
    ensures var s1 := LookedIn(cfg, s, r);
            s1 == s.(programInFlight := InProgram(s, r), compacted := s.compacted || StartsCompacting(s, Received(r)),
                     recovery := if cfg.server then s.recovery + Continuation(cfg, r.output) else s.recovery,
                     pending := BaseFor(s, r), previousId := s1.previousId)
            && (s.previousId.None? ==> s1.previousId.None?)
  {
    RestartsIff(cfg, s, r);
    CallsShow(r.output);
  }

  lemma ResponseCounts(cfg: Config, s: Turn, r: Response, t: Turn)
    requires ValidResponse(r) && !Restarts(cfg, s, r) && OnResponse(cfg, s, r) == Continue(t)
    ensures Counted(cfg, s, Received(r), t) && Flagged(s, Received(r), t) && Streaked(cfg, s, Received(r), t)
    ensures t.toolChain == !OnlyText(r)
  {
    LooksIn(cfg, s, r);
    var fed := DispatchDoes(cfg, LookedIn(cfg, s, r), r);
  }

  /** What the next request holds after a response that was looked at. */
  lemma ResponseDoes(cfg: Config, s: Turn, r: Response, t: Turn) returns (fed: seq<Item>)
    requires ValidResponse(r) && !Restarts(cfg, s, r) && OnResponse(cfg, s, r) == Continue(t)
    ensures Answering(cfg, s, r, fed) && Sends(cfg, s, r, fed, t) && Keeps(cfg, s, r, fed, t)
    ensures Remembered(cfg, s, r, fed, t)
  {
    LooksIn(cfg, s, r);
    fed := DispatchDoes(cfg, LookedIn(cfg, s, r), r);
  }

  /** A compaction that goes through: the calls are dropped, and the list is built anew. */
  predicate Rebuilt(cfg: Config, s: Turn, r: Response, t: Turn, kept: seq<Exchange>)
    requires ValidResponse(r)
  {
    && Recent(cfg, s.exchanges, kept)
    && r.compaction.Compacted? && t.previousId.None? && (cfg.server ==> t.recovery == t.pending)
    && (!cfg.server ==> t.recovery == s.recovery)
    && t.seen == s.seen && t.exchanges == s.exchanges && t.discovery == s.discovery
    && t.pending == r.compaction.context
                    + (if !AllReplayed(cfg, s.exchanges) && r.compaction.summary.Summary?
                       then [Note(Text, r.compaction.summary.text)] else [])
                    + s.discovery + Pairs(kept) + [NOTICE]
  }

  lemma RestartCounts(cfg: Config, s: Turn, r: Response, t: Turn)
    requires ValidResponse(r) && Restarts(cfg, s, r) && OnResponse(cfg, s, r) == Continue(t)
    ensures Counted(cfg, s, Received(r), t) && Flagged(s, Received(r), t) && Streaked(cfg, s, Received(r), t)
    ensures t.toolChain && !OnlyText(r)
  {
    RestartsIff(cfg, s, r);
    var i :| 0 <= i < |r.output| && r.output[i].Call? && !r.output[i].search && r.output[i].id != "";
    assert !OnlyText(r);
  }

  /** The most recent exchanges that may be replayed and fit the budget. */
  predicate Recent(cfg: Config, exchanges: seq<Exchange>, kept: seq<Exchange>) {
    exists k: nat :: k <= |exchanges| && FitsFrom(Replayable(cfg, exchanges), cfg.replayBudget, k)
                     && kept == Replayable(cfg, exchanges)[k..]
  }

  lemma ReplayedIsRecent(cfg: Config, exchanges: seq<Exchange>)
    ensures Recent(cfg, exchanges, Replayed(cfg, exchanges))
  {
    ReplayableAll(cfg, exchanges);
    var direct := Replayable(cfg, exchanges);
    assert direct[|direct|..] == [];
    var k := ReplayFrom(direct, cfg.replayBudget, |direct|);
    assert Replayed(cfg, exchanges) == direct[k..];
  }

  lemma RestartDoes(cfg: Config, s: Turn, r: Response, t: Turn)
    requires ValidResponse(r) && Restarts(cfg, s, r) && OnResponse(cfg, s, r) == Continue(t)
    ensures Rebuilt(cfg, s, r, t, Replayed(cfg, s.exchanges))
  {
    RestartsIff(cfg, s, r);
    ReplayedAll(cfg, s.exchanges);
    ReplayedIsRecent(cfg, s.exchanges);
  }

  /** A request that failed: sent again as it was, or the turn starts over from what it kept. */
  predicate Recovered(s: Turn, f: Reply, t: Turn)
    requires f.Failure?
  {
    if t.iteration == s.iteration then t == s.(transientRetries := s.transientRetries + 1)
    else
      && t == s.(iteration := s.iteration + 1, recoveries := s.recoveries + 1, previousId := None, toolChain := false,
                 pending := t.pending, recovery := t.pending)
      && t.pending == if s.recovery != [] then s.recovery else f.context
  }

  lemma FailureDoes(cfg: Config, s: Turn, f: Reply, t: Turn)
    requires f.Failure? && OnFailure(cfg, s, f) == Continue(t)
    ensures Recovered(s, f, t)
    ensures Counted(cfg, s, f, t) && Flagged(s, f, t) && Streaked(cfg, s, f, t) && Chained(s, f, t)
  {
  }

  /** What every pass that lets the turn go on does to the counters. */
  lemma PassCounts(cfg: Config, s: Turn, reply: Reply, t: Turn)
    requires ValidReply(reply) && Step(cfg, s, reply) == Continue(t)
    ensures Counted(cfg, s, reply, t) && Flagged(s, reply, t) && Streaked(cfg, s, reply, t) && Chained(s, reply, t)
  {
    match reply
    case Interrupted =>
    case Failure(_, _, _, _, _) => FailureDoes(cfg, s, reply, t);
    case Received(r) =>
      StepSpendsOne(cfg, s, reply);
      if Restarts(cfg, s, r) {
        RestartCounts(cfg, s, r, t);
      } else {
        ResponseCounts(cfg, s, r, t);
      }
  }

  // ----- how a turn opens -----

  /**
   * The first request: in server mode the new items under the id of the turn before, else all of the history; the goal
   * alone when there is nothing to go on from.
   */
  lemma OpeningSends(cfg: Config, context: seq<Item>, items: seq<Item>, previousId: Option<string>, goal: string)
    ensures var s := Opening(cfg, context, items, previousId, goal);
            var goalAlone := [Note(Text, goal)];
            && (cfg.server && (items != [] || Truthy(previousId)) ==> RequestOf(s) == Request(items, previousId, false))
            && (cfg.server && items == [] && !Truthy(previousId) ==>
                  RequestOf(s) == Request(goalAlone, previousId, false))
            && (!cfg.server && (context != [] || Truthy(previousId)) ==> RequestOf(s) == Request(context, None, false))
            && (!cfg.server && context == [] && !Truthy(previousId) ==> RequestOf(s) == Request(goalAlone, None, false))
    ensures var s := Opening(cfg, context, items, previousId, goal);
            && s.recovery == (if !cfg.server then [] else if context != [] then context else s.pending)
            && Spent(s) == 0 && s.nudges == 0 && s.recoveries == 0 && s.emptySearches == 0 && s.emptyRetries == 0
            && !s.compacted && !s.programInFlight && s.seen == {} && s.exchanges == [] && s.discovery == []
            && s.lastTool.None? && s.sameTool == 0
  {
  }

  /** An interruption ends every turn. */
  lemma InterruptionEnds(cfg: Config, s: Turn)
    ensures ValidReply(Interrupted) && Step(cfg, s, Interrupted) == Stop(Cancelled)
  {
  }

  // ----- whole turns -----

  predicate Capped(s: Turn) { s.nudges <= 2 && s.recoveries <= 3 && s.emptySearches <= 3 && s.emptyRetries <= 2 }

  lemma PassCaps(cfg: Config, s: Turn, reply: Reply, t: Turn)
    requires Capped(s) && Follows(cfg, s, reply, t)
    ensures Capped(t)
  {
    PassCounts(cfg, s, reply, t);
    StepSpendsOne(cfg, s, reply);
    match reply
    case Interrupted =>
    case Failure(_, _, _, _, _) => EndingIff(cfg, s, reply, ProviderFailure);
    case Received(r) =>
      EndingIff(cfg, s, reply, Answered(if Truthy(r.finalText) then r.finalText.value else r.convenienceText));
      EndingIff(cfg, s, reply, ToolDiscoveryProtocol);
      EndingIff(cfg, s, reply, ToolDiscoveryBudget);
      EndingIff(cfg, s, reply, OrchestrationFailure);
      EndingIff(cfg, s, reply, ProviderFailure);
  }

  /** No turn is nudged more than twice, starts over more than three times, or asks again more than twice. */
  lemma EveryLoopHeadIsCapped(cfg: Config, states: seq<Turn>, replies: seq<Reply>, k: nat)
    requires Trace(cfg, states, replies) && Capped(states[0]) && k < |states|
    ensures Capped(states[k])
  {
    var holds := (i: nat, s: Turn) => Capped(s);
    var follows := (s: Turn, reply: Reply, t: Turn) => Follows(cfg, s, reply, t);
    forall i: nat, s, reply, t | holds(i, s) && follows(s, reply, t) ensures holds(i + 1, t) {
      PassCaps(cfg, s, reply, t);
    }
    Along(states, replies, follows, holds, k);
  }

  // ----- what is kept of a response, a ledger and a list -----

  predicate Dropped(cfg: Config, x: Item) { x.Note? && x.kind == Reasoning && !cfg.replayReasoning }

  lemma {:induction false} ContinuationConcat(cfg: Config, a: seq<Item>, b: seq<Item>)
    ensures Continuation(cfg, a + b) == Continuation(cfg, a) + Continuation(cfg, b)
  {
    if b == [] {
      assert a + b == a;
    } else {
      var n := |b| - 1;
      assert (a + b)[..|a + b| - 1] == a + b[..n];
      ContinuationConcat(cfg, a, b[..n]);
    }
  }

  /** All of a response is kept in order, but for reasoning that cannot be replayed. */
  lemma {:induction false} ContinuationKeeps(cfg: Config, a: seq<Item>, x: Item, b: seq<Item>)
    ensures Continuation(cfg, a + [x] + b)
         == Continuation(cfg, a) + (if Dropped(cfg, x) then [] else [x]) + Continuation(cfg, b)
    ensures Continuation(cfg, []) == []
  {
    ContinuationConcat(cfg, a + [x], b);
    ContinuationConcat(cfg, a, [x]);
    assert [x][..0] == [];
    assert Continuation(cfg, [x]) == Continuation(cfg, []) + if Dropped(cfg, x) then [] else [x];
  }

  lemma {:induction false} ExecutedConcat(calls: seq<Item>, results: seq<ToolResult>, more: seq<Item>,
      others: seq<ToolResult>)
    requires |calls| == |results| && forall k :: 0 <= k < |calls| ==> calls[k].Call?
    requires |more| == |others| && forall k :: 0 <= k < |more| ==> more[k].Call?
    ensures Executed(calls + more, results + others) == Executed(calls, results) + Executed(more, others)
  {
    if more == [] {
      assert calls + more == calls && results + others == results;
    } else {
      var n := |more| - 1;
      assert (calls + more)[..|calls + more| - 1] == calls + more[..n];
      assert (results + others)[..|results + others| - 1] == results + others[..n];
      ExecutedConcat(calls, results, more[..n], others[..n]);
    }
  }

  /** Each call that ran is in the ledger, in order, with its arguments and its output. */
  lemma ExecutedKeeps(calls: seq<Item>, results: seq<ToolResult>, call: Item, result: ToolResult)
    requires |calls| == |results| && call.Call? && forall k :: 0 <= k < |calls| ==> calls[k].Call?
    ensures Executed(calls + [call], results + [result])
         == Executed(calls, results)
            + if result.rejected then [] else [Exchange(call.id, call.name, call.arguments, result.text)]
  {
    ExecutedConcat(calls, results, [call], [result]);
    assert [call][..0] == [] && [result][..0] == [];
  }
}
