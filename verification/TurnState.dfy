/** One pass of the agent's turn loop, branch by branch. */
module TurnState {
  import opened Options
  import opened TurnItems

  const MAX_TOOL_STATE_RECOVERIES := 3
  const MAX_EMPTY_RESPONSE_RETRIES := 2
  const MAX_COMPLETION_NUDGES := 2
  const MAX_EMPTY_CLIENT_SEARCHES := 3
  const MAX_FUNCTION_CALLS_PER_RESPONSE := 16

  datatype Config = Config(
    server: bool, clientSearch: bool, replayReasoning: bool,
    maxIterations: nat, maxTransientRetries: nat, maxSearchCalls: nat, maxSameTool: nat,
    directReplay: set<string>, replayBudget: nat)

  datatype Turn = Turn(
    iteration: nat, transientRetries: nat, recoveries: nat, emptyRetries: nat, nudges: nat, emptySearches: nat,
    compacted: bool, programInFlight: bool, toolChain: bool,
    pending: seq<Item>, previousId: Option<string>, recovery: seq<Item>,
    seen: set<string>, exchanges: seq<Exchange>, discovery: seq<Item>,
    lastTool: Option<string>, sameTool: nat)

  // ----- what the outside world answers -----

  datatype Status = NoStatus | CompletedStatus | OtherStatus

  datatype ToolResult = ToolResult(text: string, rejected: bool)

  datatype Discovery = Refused | OverBudget | Found(newFunctions: nat)

  /** The rows read back after compacting (none: compacting failed), and the summary of the tool rows. */
  datatype Compaction = CompactionFailed | Compacted(context: seq<Item>, summary: ToolSummary)

  datatype ToolSummary = SummaryFailed | NoSummary | Summary(text: string)

  datatype Response = Response(
    id: Option<string>, status: Status, output: seq<Item>, finalText: Option<string>, convenienceText: string,
    searchPaths: bool, overLimit: bool, compaction: Compaction, discovery: Discovery, results: seq<ToolResult>,
    toolsThrew: bool, deterministicAnswer: Option<string>, shapeError: bool, outcomesPending: bool, nudge: string)

  datatype Reply =
    | Interrupted
    | Failure(transient: bool, deltas: bool, stateMissing: bool, stateMismatch: bool, context: seq<Item>)
    | Received(response: Response)

  datatype Ending =
    | Answered(text: string)
    | Cancelled | ProviderFailure | ToolDiscoveryProtocol | ToolDiscoveryBudget | ToolStateFailure
    | OrchestrationFailure | IterationBudget

  datatype Outcome = Continue(turn: Turn) | Stop(ending: Ending)

  /** The fields of a request that change within a turn. */
  datatype Request = Request(items: seq<Item>, previousId: Option<string>, toolChain: bool)

  function RequestOf(s: Turn): Request { Request(s.pending, s.previousId, s.toolChain) }

  /** The provider sends no outputs of client calls; tools and the database answer one value per call. */
  predicate ValidResponse(r: Response) {
    && NoOutputs(r.output)
    && |r.results| == |CallsIn(r.output)|
    && (r.compaction.Compacted? ==> OnlyNotes(r.compaction.context))
  }

  predicate ValidReply(reply: Reply) {
    match reply
    case Interrupted => true
    case Failure(_, _, _, _, context) => OnlyNotes(context)
    case Received(r) => ValidResponse(r)
  }

  // ----- small pieces -----

  /** JavaScript's test on a string that may be absent. */
  predicate Truthy(text: Option<string>) { text.Some? && text.value != "" }

  /** The response in provider order, without reasoning when it cannot be replayed. */
  function Continuation(cfg: Config, output: seq<Item>): seq<Item> {
    if output == [] then [] else
      var last := output[|output| - 1];
      Continuation(cfg, output[..|output| - 1])
      + if last.Note? && last.kind == Reasoning && !cfg.replayReasoning then [] else [last]
  }

  function OutputItems(calls: seq<Item>, results: seq<ToolResult>): seq<Item>
    requires |calls| == |results| && forall k :: 0 <= k < |calls| ==> calls[k].Call?
  {
    seq(|calls|, k requires 0 <= k < |calls| => Output(calls[k].search, calls[k].id, results[k].text))
  }

  /** The calls that ran, with their outputs. */
  function Executed(calls: seq<Item>, results: seq<ToolResult>): (ledger: seq<Exchange>)
    requires |calls| == |results| && forall k :: 0 <= k < |calls| ==> calls[k].Call?
  {
    if calls == [] then [] else
      var n := |calls| - 1;
      var call := calls[n];
      Executed(calls[..n], results[..n])
      + if results[n].rejected then [] else [Exchange(call.id, call.name, call.arguments, results[n].text)]
  }

  predicate HasSearch(calls: seq<Item>) { exists k :: 0 <= k < |calls| && calls[k].Call? && calls[k].search }

  predicate HasFunction(calls: seq<Item>) { exists k :: 0 <= k < |calls| && calls[k].Call? && !calls[k].search }

  predicate HasFunctionOutput(items: seq<Item>) {
    exists k :: 0 <= k < |items| && items[k].Output? && !items[k].search
  }

  predicate Usable(call: Item) { call.Call? && !call.search && call.id != "" && call.name != "" }

  predicate HasUsable(calls: seq<Item>) { exists k :: 0 <= k < |calls| && Usable(calls[k]) }

  predicate AllUsable(calls: seq<Item>) { forall k :: 0 <= k < |calls| ==> Usable(calls[k]) }

  predicate HasHostedSearch(items: seq<Item>) {
    exists k :: 0 <= k < |items| && items[k].Note? && items[k].kind == HostedSearch
  }

  predicate HasProgram(items: seq<Item>) {
    exists k :: 0 <= k < |items| && items[k].Note? && items[k].kind == Program
  }

  predicate Fresh(calls: seq<Item>, seen: set<string>) {
    DistinctIds(calls) && forall k :: 0 <= k < |calls| && calls[k].Call? ==> calls[k].id !in seen
  }

  // ----- failed requests -----

  predicate RetriesUnchanged(cfg: Config, s: Turn, f: Reply)
    requires f.Failure?
  {
    f.transient && !f.deltas && s.transientRetries < cfg.maxTransientRetries
  }

  predicate RecoversState(s: Turn, f: Reply)
    requires f.Failure?
  {
    && s.recoveries < MAX_TOOL_STATE_RECOVERIES
    && Truthy(s.previousId)
    && (f.stateMissing || (f.stateMismatch && HasFunctionOutput(s.pending)))
  }

  function OnFailure(cfg: Config, s: Turn, f: Reply): Outcome
    requires f.Failure?
  {
    if RetriesUnchanged(cfg, s, f) then Continue(s.(transientRetries := s.transientRetries + 1))
    else if RecoversState(s, f) then
      var items := if s.recovery != [] then s.recovery else f.context;
      Continue(s.(iteration := s.iteration + 1, recoveries := s.recoveries + 1, previousId := None,
                  pending := items, recovery := items, toolChain := false))
    else Stop(ProviderFailure)
  }

  // ----- mid-turn compaction -----

  predicate Compacts(s: Turn, r: Response) {
    && r.overLimit && !s.programInFlight && s.iteration > 0 && !s.compacted
    && HasUsable(CallsIn(r.output))
  }

  function Replayable(cfg: Config, exchanges: seq<Exchange>): seq<Exchange> {
    if exchanges == [] then [] else
      var n := |exchanges| - 1;
      Replayable(cfg, exchanges[..n]) + if exchanges[n].name in cfg.directReplay then [exchanges[n]] else []
  }

  /** The most recent replayable exchanges that fit the budget. */
  function Replayed(cfg: Config, exchanges: seq<Exchange>): (kept: seq<Exchange>) {
    var direct := Replayable(cfg, exchanges);
    assert direct[|direct|..] == [];
    direct[ReplayFrom(direct, cfg.replayBudget, |direct|)..]
  }

  const NOTICE: Item := Note(Text, "compaction notice")

  /** The rebuilt items, or only the fresh context when the tool summary could not be read. */
  function Rebuild(cfg: Config, s: Turn, r: Response): (r1: (seq<Item>, bool))
    requires ValidResponse(r) && r.compaction.Compacted?
  {
    var kept := Replayed(cfg, s.exchanges);
    var summary := r.compaction.summary;
    if |kept| < |s.exchanges| && summary.SummaryFailed? then (r.compaction.context, false)
    else
      var note := if |kept| < |s.exchanges| && summary.Summary? then [Note(Text, summary.text)] else [];
      (r.compaction.context + note + s.discovery + Pairs(kept) + [NOTICE], true)
  }

  function Compact(cfg: Config, s: Turn, r: Response): Outcome
    requires ValidResponse(r)
  {
    var s1 := s.(compacted := true);
    if r.compaction.CompactionFailed? then Dispatch(cfg, s1, r)
    else
      var (items, done) := Rebuild(cfg, s, r);
      var s2 := s1.(previousId := None, pending := items);
      if !done then Dispatch(cfg, s2, r)
      else Continue(s2.(iteration := s.iteration + 1, toolChain := true,
                        recovery := if cfg.server then items else s.recovery))
  }

  // ----- client tool search -----

  predicate BadSearch(cfg: Config, s: Turn, r: Response) {
    var calls := CallsIn(r.output);
    !cfg.clientSearch || HasFunction(calls) || !Fresh(calls, s.seen) || |calls| > cfg.maxSearchCalls
    || r.discovery.Refused?
  }

  function Discover(cfg: Config, s: Turn, r: Response): Outcome
    requires ValidResponse(r)
  {
    if BadSearch(cfg, s, r) then Stop(ToolDiscoveryProtocol)
    else if r.discovery.OverBudget? then Stop(ToolDiscoveryBudget)
    else
      var empties := if r.discovery.newFunctions == 0 then s.emptySearches + 1 else 0;
      if empties > MAX_EMPTY_CLIENT_SEARCHES then Stop(ToolDiscoveryBudget)
      else if cfg.server && !Truthy(r.id) then Stop(ToolStateFailure)
      else
        var outputs := OutputItems(CallsIn(r.output), r.results);
        var round := Continuation(cfg, r.output) + outputs;
        Continue(s.(iteration := s.iteration + 1, toolChain := true, emptySearches := empties,
                    seen := s.seen + Ids(r.output),
                    discovery := if r.discovery.newFunctions > 0 then s.discovery + round else s.discovery,
                    previousId := if cfg.server then r.id else None,
                    pending := if cfg.server then outputs else s.pending + round,
                    recovery := if cfg.server then s.recovery + outputs else s.recovery))
  }

  // ----- a response without calls -----

  function Conclude(cfg: Config, s: Turn, r: Response): Outcome {
    if r.outcomesPending && s.nudges < MAX_COMPLETION_NUDGES then
      var nudge := [Note(Text, r.nudge)];
      var continuation := Continuation(cfg, r.output);
      Continue(s.(iteration := s.iteration + 1, toolChain := false, nudges := s.nudges + 1,
                  previousId := if cfg.server then r.id else s.previousId,
                  pending := if cfg.server then nudge else s.pending + continuation + nudge,
                  recovery := if cfg.server then s.recovery + continuation + nudge else s.recovery))
    else Stop(Answered(AnswerText(r)))
  }

  /** `finalAssistantText || convenienceText` */
  function AnswerText(r: Response): string {
    if Truthy(r.finalText) then r.finalText.value else r.convenienceText
  }

  function WaitForText(cfg: Config, s: Turn, r: Response): Outcome {
    if !cfg.server && (r.output != [] || r.convenienceText != "") then
      var said := if s.programInFlight && r.convenienceText != "" then [Note(Text, r.convenienceText)] else [];
      Continue(s.(iteration := s.iteration + 1, toolChain := false, previousId := None,
                  pending := s.pending + Continuation(cfg, r.output) + said))
    else if cfg.server && r.searchPaths && Truthy(r.id) then
      Continue(s.(iteration := s.iteration + 1, toolChain := false, previousId := r.id, pending := []))
    else if cfg.server && Truthy(r.id) && s.emptyRetries < MAX_EMPTY_RESPONSE_RETRIES then
      Continue(s.(iteration := s.iteration + 1, toolChain := false, previousId := r.id, pending := [],
                  emptyRetries := s.emptyRetries + 1))
    else Stop(ProviderFailure)
  }

  function Answer(cfg: Config, s: Turn, r: Response): Outcome {
    if r.finalText.Some? then
      if s.programInFlight && r.shapeError then Stop(OrchestrationFailure)
      else Conclude(cfg, s.(programInFlight := false), r)
    else if !s.programInFlight && r.convenienceText != "" then Conclude(cfg, s, r)
    else WaitForText(cfg, s, r)
  }

  // ----- function calls -----

  function CountSameTool(s: Turn, calls: seq<Item>): Turn {
    if |calls| == 1 && calls[0].Call? then
      if s.lastTool == Some(calls[0].name) then s.(sameTool := s.sameTool + 1)
      else s.(sameTool := 1, lastTool := Some(calls[0].name))
    else if |calls| > 1 then s.(sameTool := 0, lastTool := None)
    else s
  }

  /** The accepted call ids are remembered for the rest of the turn. */
  function Noted(s: Turn, r: Response): Turn {
    CountSameTool(s.(seen := s.seen + Ids(r.output)), CallsIn(r.output))
  }

  const ANTI_LOOP: Item := Note(Text, "anti-loop nudge")

  function RunTools(cfg: Config, s: Turn, r: Response): Outcome
    requires ValidResponse(r)
  {
    var calls := CallsIn(r.output);
    if r.toolsThrew then Stop(OrchestrationFailure)
    else if Truthy(r.deterministicAnswer) then Stop(Answered(r.deterministicAnswer.value))
    else
      var outputs := OutputItems(calls, r.results);
      var nudge := if s.sameTool >= cfg.maxSameTool then [ANTI_LOOP] else [];
      Continue(s.(iteration := s.iteration + 1, toolChain := true, emptyRetries := 0,
                  exchanges := s.exchanges + Executed(calls, r.results),
                  previousId := if cfg.server then r.id else None,
                  pending := if cfg.server then outputs + nudge
                             else s.pending + (Continuation(cfg, r.output) + outputs) + nudge,
                  recovery := if cfg.server then s.recovery + outputs + nudge else s.recovery,
                  sameTool := if s.sameTool >= cfg.maxSameTool then 0 else s.sameTool))
  }

  predicate GoodEnvelope(calls: seq<Item>, seen: set<string>) {
    calls != [] ==> |calls| <= MAX_FUNCTION_CALLS_PER_RESPONSE && Fresh(calls, seen)
  }

  function Dispatch(cfg: Config, s: Turn, r: Response): Outcome
    requires ValidResponse(r)
  {
    var calls := CallsIn(r.output);
    if cfg.clientSearch && HasHostedSearch(r.output) then Stop(ToolDiscoveryProtocol)
    else if HasSearch(calls) then Discover(cfg, s, r)
    else if !AllUsable(calls) || !GoodEnvelope(calls, s.seen) then Stop(OrchestrationFailure)
    else if cfg.server && calls != [] && !(r.status.CompletedStatus? && Truthy(r.id)) then Stop(ToolStateFailure)
    else
      var s1 := Noted(s, r);
      if calls == [] then Answer(cfg, s1, r) else RunTools(cfg, s1, r)
  }

  // ----- one pass -----

  /** Server mode remembers the response before anything is decided about it. */
  function Receive(cfg: Config, s: Turn, r: Response): Turn {
    s.(recovery := if cfg.server then s.recovery + Continuation(cfg, r.output) else s.recovery,
       programInFlight := s.programInFlight || HasProgram(r.output))
  }

  function OnResponse(cfg: Config, s: Turn, r: Response): Outcome
    requires ValidResponse(r)
  {
    if r.status.OtherStatus? then Stop(ProviderFailure)
    else
      var s1 := Receive(cfg, s, r);
      if Compacts(s1, r) then Compact(cfg, s1, r) else Dispatch(cfg, s1, r)
  }

  function Step(cfg: Config, s: Turn, reply: Reply): Outcome
    requires ValidReply(reply)
  {
    match reply
    case Interrupted => Stop(Cancelled)
    case Failure(_, _, _, _, _) => OnFailure(cfg, s, reply)
    case Received(r) => OnResponse(cfg, s, r)
  }

  /** How a turn opens: the goal when there is neither history nor a chain to continue. */
  function Opening(cfg: Config, context: seq<Item>, items: seq<Item>, previousId: Option<string>, goal: string): Turn {
    var first := if cfg.server then items else context;
    var pending := if first == [] && !Truthy(previousId) then [Note(Text, goal)] else first;
    var recovery := if !cfg.server then [] else if context != [] then context else pending;
    Turn(0, 0, 0, 0, 0, 0, false, false, false, pending, if cfg.server then previousId else None, recovery,
         {}, [], [], None, 0)
  }
}
