# Verified model of the agent's turn machinery

This project models the tool-calling turn loop of the chat agent and the small protocols around it, and proves what
each of them keeps under any input or any interleaving. Provider answers, tools, the database and clocks are
arguments or events; every statement is about all of them. `dafny verify dfyconfig.toml` checks everything.

| file | part of the agent |
|---|---|
| `TurnItems`, `TurnState`, `TurnEndings`, `TurnLoop`, `TurnRuns`, `TurnEffects`, `TurnMemory`, `TurnModes`, `TurnChains` | the turn loop `runNativeAgentLoop` as a state machine over provider replies: one branch per function in `TurnState`, all the ways a turn ends in `TurnEndings` and what a pass leaves behind in `TurnEffects`, both told from the reply, the item-list invariant in `TurnLoop`, whole turns and the loop itself in `TurnRuns`, what a turn forgets in `TurnMemory`, server against stateless mode in `TurnModes`, what the provider reads in server mode in `TurnChains` |
| `ProgramPolicy`, `ProgramBatch` | the programmatic batch policy and the local parallel batch |
| `SideEffects`, `SideEffectSteps` | canonical argument keys and the once-per-turn memo of write and UI calls; a batch of calls interleaving at their awaits |
| `SseParser`, `SseTexts`, `StreamProgress`, `StreamRetry`, `StreamItems`, `StreamCalls` | the incremental event-stream parser and what it makes of literal texts, the flag of useful deltas and the retry rule that asks for it, the item collector and what it makes of the events |
| `Json`, `SchemaValidator`, `SchemaKeywords`, `ErrorArms`, `ErrorSchemas`, `ProgramOutput` | deep equality, the JSON-schema validator with its shared error list, each schema keyword by itself and all together, the fixed errors of the programmatic tools and their schemas, the output serializer |
| `ResponseAdmission`, `AdmissionOutcomes` | the bounded semaphore with its bounded FIFO queue, and the same protocol on its tickets alone |
| `Compaction` | thread compaction and its retries |
| `SplitText`, `CodeBlocks`, `DiscordSplit`, `TelegramSplit` | message splitting with code-fence rebalancing; what the fence expression takes for a code block |
| `ReadSubagents`, `SubagentOutcomes` | the subagent worker pool, what its answers come to, and the two size-bounding loops |
| `ToolRegistry`, `RegistryContents`, `ToolCalls` | the registry, its contents told from the tools, and the client discovery budgets; the call envelope |
| `ChatGuard` | the sliding-window limiter |
| `Options` | the one option type |

## Findings

Where an intended property fails, a lemma says so, and another gives the condition under which it holds.

- In server mode a completion nudge pushes the response into the recovery list a second time (lines 1254 and 1550 of
  the executor): `TurnModes.NudgeRepeats`, and a turn that gets there, `TurnModes.NudgeRepeatsTheAnswer`; the two modes
  agree exactly as in `TurnModes.ResponsesAgreeIff`.
- A nudge is the one server-mode branch that does not ask for a response id; without one the next request carries the
  nudge alone: `TurnModes.AnchorLostIff`.
- When compaction succeeds but reading the tool summary fails, the stateless list has already been replaced, and the
  turn goes on without any earlier output: `TurnMemory.LateFailureForgetsAll`, and a turn of two passes that does so,
  `TurnMemory.LateFailureReached`. A compaction that does not complete keeps the list and every output exactly
  otherwise: `TurnMemory.IncompleteForgetsIff`.
- A stream that breaks off is not flushed. A useful event whose closing blank line had not arrived does not set the
  flag, so the identical request can be sent again after a tool call was on the wire: exactly as in
  `StreamRetry.UnsafeRetryIff`; `StreamProgress.OpenGroupUnseen` gives the texts.
- A response of nothing but reasoning, when reasoning cannot be replayed, makes the stateless loop send the same items
  again, up to the iteration limit: `TurnMemory.StatelessRepeatIff`.
- The validator's error list can reach eleven entries, not eight: `SchemaValidator.ElevenIsReached`. It has more than
  eight exactly when the checks that one node makes in one go straddle the cap: `SchemaValidator.MoreThanCapIff`.
- A collected call whose id spells the key of a nameless record swallows that record
  (`StreamItems.CollidingKeysLoseARecord`); a record that is not a call survives unchanged exactly when no call of the
  stream has its key: `StreamItems.SurvivesIff`. What such a collision leaves can pass for another call
  (`StreamItems.CollisionSharesIdentity`): two entries are records of one call exactly when the last call id, id and
  type under two keys name it, one of them not its own key and shared by calls and others,
  `StreamItems.SharedIdentityIff`.
- Arguments that are present but not text replace the text collected before (`StreamItems.NonTextArgumentsWin`). The
  final arguments are the longest text since the last such record (`StreamItems.FinalArguments`), so the longest text
  ever seen is kept exactly when no strictly longer one precedes such a record: `StreamItems.LongestKeptIff`.
- The Telegram splitter tests the lines before a marker without the newline that completes an opener. The marker that
  closes a block opened by that very newline is cut off and its opener left stranded at the end of a chunk:
  `TelegramSplit.CloserCutOff`, exactly as in `TelegramSplit.ClosersAreMovedIff`. When any cut strands an opener:
  `TelegramSplit.StrandedAfterIff`.
- A cut at a space brings an inline marker to the start of a chunk, where it opens a block the text does not have:
  `TelegramSplit.FalseOpener`, and every text of a long word and such a marker gets there,
  `TelegramSplit.FalseOpenerReached`. At one cut the chunk reads as it does in the text exactly as in
  `TelegramSplit.ChunkReadsIff`, behind a stranded opener exactly as in `TelegramSplit.StrandedChunkIff`; the chunks are
  reopened as the text demands up to the first cut where that fails (`TelegramSplit.OpenBeforeReadsText`), and behind
  that cut wrongly exactly then (`TelegramSplit.FirstPartingIff`).
- A text that fits the Telegram limit is sent as it is, open fence included: the equivalence in
  `TelegramSplit.SplitForTelegram`; with limit 0 the cutting loop stalls exactly as in `TelegramSplit.ProgressIff`.
- A hard cut of the Discord splitter can take a fence marker apart, and neither chunk has it then:
  `DiscordSplit.MarkerCutInTwo`. Counting is exact in `DiscordSplit.CountsAdd`; a chunk is reopened as the text demands
  exactly when an even number of markers were taken apart before it: `DiscordSplit.OpenReadsTextIff`.
- Discord messages fit every limit from 72 on: the two markers cost eight of the ten reserved characters.
- Bounding the subagent aggregate can make its text longer in a step: exactly when the payload left out is smaller than
  what takes its place, `ReadSubagents.StepGrowsIff`; for `ReadSubagents.StepCanGrow`, 128 characters.
- A comparison that ties distinct keys, as locale-aware comparison may, breaks canonical argument keys for every pair
  it ties (`SideEffects.TiedKeysKeepTheirOrder`): sorting decides equality up to key order exactly when it ties none,
  `SideEffects.DecidesMeaningIffNoTies`, and the memo lets no action through twice exactly then,
  `SideEffects.NeverTwiceIffNoTies`.
- The memo is filled when a call settles, so it does not keep two calls of one effect that overlap from both running:
  `SideEffectSteps.StartedTogether`, exactly as in `SideEffectSteps.TwiceIffOverlap` and
  `SideEffectSteps.TogetherTwiceIff`. It is the guard on mixed batches that does: `SideEffectSteps.GuardedNeverTwice`.

## Model

| member | source | states |
|---|---|---|
| TurnLoop.OpeningKeeps | src/agent/executor.ts:976-997 | however a turn opens, its resendable items are paired and no id is in use |
| TurnLoop.StepKeeps | src/agent/executor.ts:1060-1888 | every pass that lets the turn go on keeps every function call and client search paired with exactly one later output of the same id, keeps ids unique and remembered, and keeps the ledger and the discovery rounds replayable |
| TurnLoop.DispatchKeeps | src/agent/executor.ts:1347-1505 | the same for everything decided after a response was received |
| TurnLoop.DiscoverKeeps | src/agent/executor.ts:1359-1476 | a client search round keeps both the resendable list and the discovery rounds paired and disjoint from the ledger |
| TurnLoop.ConcludeKeeps | src/agent/executor.ts:1539-1586 | a completion nudge keeps the list paired, although server mode adds the response twice |
| TurnLoop.WaitForTextKeeps | src/agent/executor.ts:1587-1614 | a response with neither text nor calls keeps the list paired |
| TurnLoop.RunToolsKeeps | src/agent/executor.ts:1757-1883 | a round of function calls, rejected ones included, keeps the list paired and the ledger free of repeated ids |
| TurnLoop.RebuildKeeps | src/agent/executor.ts:1297-1322 | what compaction rebuilds (context, summary, discovery rounds, replayed exchanges, notice) is paired and uses only ids of this turn |
| TurnLoop.CompactKeeps | src/agent/executor.ts:1272-1341 | mid-turn compaction keeps the invariant when it succeeds, when it fails early and when it fails late |
| TurnLoop.FailureKeeps | src/agent/executor.ts:1116-1165 | an identical retry and a cold restart after lost provider state keep the invariant |
| TurnLoop.RoundFollows | src/agent/executor.ts:1862-1869 | a response with fresh, distinct call ids followed by one output per call may be appended to any paired list |
| TurnLoop.ContinuationFacts | src/agent/native-responses.ts:444-451 | dropping reasoning from a response loses no call and no id |
| TurnItems.RoundIsPaired | src/agent/native-responses.ts:414-423 | a response and one output per call, in any order of calls and notes, pair up |
| TurnItems.PairedConcat | src/agent/executor.ts:1862-1869 | paired lists over disjoint ids concatenate to a paired list |
| TurnItems.PairsArePaired | src/agent/executor.ts:3288-3300 | replayed exchanges are paired and carry exactly the ids of the ledger entries chosen |
| TurnItems.BuildTurnToolReplayItems | src/agent/executor.ts:3274-3302 | replays the longest run of most recent exchanges that fits the budget, oldest first, and counts replayed, omitted and characters right |
| TurnRuns.EveryLoopHeadIsPaired | src/agent/executor.ts:1060-1888 | over every turn, at every loop head, the resendable items pair every call with its one output |
| TurnRuns.EveryStatelessRequestIsPaired | src/agent/executor.ts:1090-1092 | every request of a stateless turn is paired as sent |
| TurnRuns.StepSpendsOne | src/agent/executor.ts:1124-1135 | a pass costs one iteration, or one transient retry when it retries unchanged, never both and never neither |
| TurnRuns.SpentCountsPasses | src/agent/executor.ts:1060 | iterations and retries together count the passes, and neither budget is overdrawn |
| TurnRuns.RequestsAreBounded | src/agent/executor.ts:1060-1135 | whatever the provider returns, at most maxToolIterations + maxTransientRetries requests are issued |
| TurnRuns.IdenticalRetryIff | src/agent/executor.ts:1116-1242 | after a failure the same request is sent again exactly when the failure was transient, no useful delta had arrived and retries are left |
| TurnMemory.StatelessRepeatIff | src/agent/executor.ts:1587-1598 | after a response, a stateless pass whose compaction, if it starts one, does not complete sends the same items again exactly when the response was reasoning it may not replay and nothing else |
| TurnMemory.OnlyReplacingForgets | src/agent/executor.ts:1853-1870 | a pass that does not put another list in place of the resendable items only appends to them, a compaction that fails included |
| TurnMemory.StepRemembers | src/agent/executor.ts:1819-1848 | such a pass keeps every output that could be resent, and every call it executes adds its output |
| TurnMemory.OutputsAreNeverLost | src/agent/executor.ts:1041-1045 | over any run of passes that replace nothing, whether or not compaction was attempted, the list only grows and no output of an executed call is lost |
| TurnMemory.IncompleteForgetsIff | src/agent/executor.ts:1288-1341 | a compacting pass that does not complete keeps the list as a prefix and every output exactly unless it fails late in the stateless mode; with nothing executed it cannot fail late |
| TurnMemory.RebuildRemembersIff | src/agent/executor.ts:1299-1318 | of the outputs in the ledger the rebuilt list holds exactly those of the exchanges chosen for replay |
| TurnRuns.RunNativeAgentLoop | src/agent/executor.ts:1060-1895 | the loop: one request per pass taken from the state at the loop head, states following one another by the branches, an ending for one of the reasons there are for it or for want of iterations, and the request bound |
| TurnEndings.EndingIff | src/agent/executor.ts:1060-1895 | a reply ends the turn in a given way exactly as listed by its own fields and the counters of the turn: answered with the final text, the convenience text or the deterministic count; cancelled; and for each of the five failures |
| TurnEffects.InterruptionEnds | src/agent/executor.ts:1061-1070 | an interruption ends every turn |
| TurnEffects.PassCounts | src/agent/executor.ts:1116-1888 | what any continuing pass does to retries, recoveries, nudges, empty searches and empty answers, to the flags of compaction, program and tool chain, and to the count of the same tool, told from the reply |
| TurnEffects.ResponseDoes | src/agent/executor.ts:1359-1888 | after a response that was looked at, the next request holds exactly the list so far (server mode: nothing), the response and what answers it: one output per call in order, the nudge or the loose text, with the anti-loop note exactly at the end of a streak; ids, ledger and discovery rounds grow by exactly that round |
| TurnEffects.RestartDoes | src/agent/executor.ts:1290-1336 | after a compaction that goes through, the next request holds exactly the fresh context, a tool summary if something is left out, the discovery rounds, the most recent exchanges that may be replayed and fit, and the notice |
| TurnEffects.FailureDoes | src/agent/executor.ts:1116-1165 | a failed request is either repeated with nothing changed but the retry count, or the turn starts over from what it kept, without a response id |
| TurnEffects.EveryLoopHeadIsCapped | src/agent/executor.ts:1060-1888 | no turn is nudged more than twice, starts over more than three times, searches in vain more than three times in a row or asks again for an empty answer more than twice |
| TurnEffects.OpeningSends | src/agent/executor.ts:976-997 | the first request and the first state, in either mode |
| TurnEffects.ContinuationKeeps | src/agent/native-responses.ts:444-451 | all of a response is kept in order, but for reasoning that cannot be replayed |
| TurnEffects.ExecutedKeeps | src/agent/executor.ts:1819-1827 | each call that was not rejected is in the ledger, in order, with its arguments and output |
| TurnModes.ResponsesAgreeIff | src/agent/executor.ts:1254-1259 | over one response, the server mode's recovery list stays exactly what the stateless mode would send, if and only if no nudge follows some output, no loose text is added beside a program, and compaction does not fail late with a context that differs from the list |
| TurnModes.StepsAgree | src/agent/executor.ts:1142-1160 | over any reply both modes survive, failures included, agreement is kept |
| TurnModes.ServerCanAlwaysRestart | src/agent/executor.ts:989-997 | over whole turns: at every loop head the server mode can restart cold with exactly the stateless list, as long as no round parts them |
| TurnModes.DiscoveriesAgree | src/agent/executor.ts:1452-1473 | a client search round adds the same to both lists |
| TurnModes.ToolsAgree | src/agent/executor.ts:1847-1882 | a round of function calls, with its anti-loop note, adds the same to both lists |
| TurnModes.CompactionsAgree | src/agent/executor.ts:1272-1341 | compaction leaves both lists equal, except when it fails late after the context changed |
| TurnModes.AnchorLostIff | src/agent/executor.ts:1547-1550 | a server-mode request loses the turn's history exactly after a nudge on a response without an id |
| TurnModes.NudgeRepeats | src/agent/executor.ts:1547-1550 | whatever final text a nudge answers, the recovery list takes in its response twice |
| TurnModes.NudgeRepeatsTheAnswer | src/agent/executor.ts:1547-1550 | a turn whose recovery list holds the assistant's message twice |
| TurnMemory.LateFailureForgetsAll | src/agent/executor.ts:1297-1341 | when compaction fails late, a stateless turn can resend none of the outputs it had |
| TurnMemory.LateFailureReached | src/agent/executor.ts:1297-1341 | a turn of two passes whose second request has neither the first call nor its output |
| TurnChains.EveryServerRequestIsPaired | src/agent/executor.ts:1090-1092 | over every server-mode turn, what the provider keeps under the named response followed by the items sent pairs every call with its one output |
| TurnChains.PassReads | src/agent/executor.ts:1248-1888 | one pass keeps that, and the next request names the response just received, the one before it on a retry, or none |
| TurnChains.OpeningReads | src/agent/executor.ts:976-997 | a turn that opens on a paired chain of earlier turns starts that way |
| ProgramPolicy.PassesIffCoherent | src/agent/executor.ts:2031-2077 | the incremental checks on one call accept it exactly when the program with it is coherent as a whole |
| ProgramPolicy.FamilyLimits | src/agent/executor.ts:2289-2300 | how many calls and how much work a program of each of the nine families may hold, number by number |
| ProgramPolicy.CoherentPrefix | src/agent/executor.ts:1952-1964 | every beginning of a coherent program is coherent |
| ProgramPolicy.OverlapIsCommonInstant | src/agent/executor.ts:2065-2069 | the window test holds exactly when two windows of one target share an instant |
| ProgramPolicy.EmptyKeyDisarmsComparison | src/agent/executor.ts:2058-2064 | an empty comparison key would switch the comparison off, which is why the argument validators must not produce one |
| ProgramBatch.JudgeAllDecides | src/agent/executor.ts:2006-2085 | checking call by call on draft states accepts exactly the batches that leave every program of the turn coherent |
| ProgramBatch.CloneStates | src/agent/executor.ts:2094-2102 | the draft has the same contents in fresh, unshared objects |
| ProgramBatch.CollectCallers | src/agent/executor.ts:1967-1986 | one malformed caller fails the response; otherwise the programmatic calls are counted |
| ProgramBatch.CheckCalls | src/agent/executor.ts:2007-2080 | the loop over the calls computes the judgement and changes drafts only |
| ProgramBatch.ProgramTable.CommitOrDiscard | src/agent/executor.ts:2006-2091 | all program states change together or not at all |
| ProgramBatch.ProgramTable.ValidateProgrammaticBatch | src/agent/executor.ts:1952-2092 | a batch is taken exactly when budgets, eligibility and coherence of all programs allow it; at most four calls are taken per turn; a rejected batch leaves every program as it was |
| ProgramBatch.ProgramTable.ValidateCompletedProgramShapes | src/agent/executor.ts:1930-1950 | the check on the states at the end of a turn holds exactly when every known program has between its family's least and most accepted calls, or none after a refusal |
| ProgramBatch.LocalStep | src/agent/executor.ts:2391-2425 | a local call's checks pass exactly when its family stays coherent |
| ProgramBatch.ValidateLocalParallelBatch | src/agent/executor.ts:2346-2433 | a local batch is accepted exactly when it is within budget, well shaped, has distinct ids and every family in it is a coherent program; otherwise it is refused for the budget, or for the first fault of the first faulty entry |
| ProgramBatch.LocalBatchState.Admit | src/agent/executor.ts:2443-2447 | accepted local calls are charged to the turn, which never exceeds four; refused batches cost nothing |
| SideEffects.SortJsonSorts | src/agent/executor.ts:3446-3454 | key sorting yields a canonical value of the same meaning |
| SideEffects.CanonicalIsUnique | src/agent/executor.ts:3446-3454 | two canonical values of one meaning are identical |
| SideEffects.SortDecidesMeaning | src/agent/executor.ts:3446-3454 | two argument values sort to the same form exactly when they are equal up to key order |
| SideEffects.SameKeyIffSameCall | src/agent/executor.ts:3442-3444 | execution keys are equal exactly for the same tool with arguments of the same JSON text up to key order (value by value, both zeros one, numbers that are not finite as null); for finite arguments without -0, exactly when the arguments are equal up to key order |
| Json.WrittenAlikeIff | src/agent/programmatic-contracts.ts:456-468 | two values are equal once written and read back exactly when they are alike value by value |
| Json.PlainIsWritten | src/agent/programmatic-contracts.ts:456-468 | a value of finite numbers other than -0 loses nothing in JSON text |
| SideEffects.TiedKeysKeepTheirOrder | src/agent/executor.ts:3449-3452 | any two distinct keys that a comparison ties give two equal objects of different sorted forms |
| SideEffects.DecidesMeaningIffNoTies | src/agent/executor.ts:3446-3454 | for every total and transitive comparison: sorted forms are equal exactly for equal values, on all values, if and only if the comparison ties no two keys |
| SideEffects.SideEffectMemo.RunOne | src/agent/executor.ts:1681-1739 | a call gets the answer of the first call of the turn with the same effect, and reads are always answered anew |
| SideEffects.SideEffectMemo.ExecuteValidatedToolCallsSequentially | src/agent/executor.ts:2323-2333 | a batch with side effects runs in order, each call answered from the turn so far |
| SideEffects.RepeatedAnswer | src/agent/executor.ts:1684-1687 | what the memo holds for a repeated call is the first answer |
| SideEffects.DispatchedAtMostOnce | src/agent/executor.ts:1681-1739 | two write or UI calls that both reached an executor differ in name or in the text of their arguments up to key order |
| SideEffects.SameEffectIffAlike | src/agent/executor.ts:1681-1687 | two calls share one entry of the memo exactly when both change something, name one tool and have arguments of the same text up to key order |
| SideEffects.DispatchedIff | src/agent/executor.ts:1681-1687 | under a total key order a call reaches its executor exactly when no call of the turn before it is alike up to key order |
| SideEffects.NeverTwiceIffNoTies | src/agent/executor.ts:3446-3454 | for every total and transitive comparison: of alike calls only one is dispatched, in every turn, if and only if the comparison ties no two keys |
| SideEffectSteps.TwiceIffOverlap | src/agent/executor.ts:1681-1735 | however the calls of a batch interleave at their awaits, one effect is dispatched twice exactly when a call starts while another with the same effect is running |
| SideEffectSteps.TogetherTwiceIff | src/agent/executor.ts:1738-1740 | some interleaving dispatches an effect twice exactly when the batch holds two calls of one effect that the memo does not know |
| SideEffectSteps.StartedTogether | src/agent/executor.ts:1681-1735 | any two such calls started together are both dispatched |
| SideEffectSteps.GuardedNeverTwice | src/agent/executor.ts:1738-1740 | with reads in any order and all other batches one call after another, no effect is dispatched twice |
| SideEffectSteps.SequentialAnswers | src/agent/executor.ts:1681-1740 | run one after another, every call is answered as the first call of the turn with its effect was, only that one being dispatched, and the memo holds the turn with the batch at its end |
| SideEffectSteps.ReadsInAnyOrder | src/agent/executor.ts:1738-1740 | whatever order reads run in, the finished batch is the one that runs them one by one |
| SseParser.SseParser.Feed | src/agent/native-responses.ts:628-638 | after any chunk the parser's fields are what the text fed so far amounts to |
| SseParser.SseParser.End | src/agent/native-responses.ts:639-647 | at the end of the stream the events are those of the whole text, the open group included |
| SseParser.ParseChunks | src/agent/native-responses.ts:508-556 | any way of cutting a text into chunks gives the events of the line-by-line, group-by-blank-line specification |
| SseParser.ParseSse | src/agent/native-responses.ts:651-657 | parsing at once gives the same events |
| SseTexts.DataReads | src/agent/native-responses.ts:617-620 | of the text behind `data:` the first character goes exactly when it is one of the white-space code points, and nothing else goes |
| SseTexts.SpacedDataReads | src/agent/native-responses.ts:577-603 | for every line v, `data: v` is one event with data v under the payload's trimmed type; none for an empty v or the end marker |
| SseTexts.DoneIsSilent | src/agent/native-responses.ts:584-587 | the end marker in its usual spelling gives no event |
| SseTexts.TwoDataRead | src/agent/native-responses.ts:582-603 | two data lines of a group give one event, joined by a newline |
| SseTexts.NamedReads | src/agent/native-responses.ts:613-616 | the trimmed event field names the group; without a name the payload does |
| SseTexts.BareLineReads | src/agent/native-responses.ts:621-625 | any line that starts with none of the field names is data as it stands |
| SseTexts.IgnoredLine | src/agent/native-responses.ts:610-623 | comments, ids and retry times add nothing, wherever they stand in a text |
| SseTexts.ReturnGoes | src/agent/native-responses.ts:632-633 | a carriage return in front of a newline goes with it |
| SseTexts.BlankLineCuts | src/agent/native-responses.ts:605-609 | what stands before a blank line is read by itself |
| SseTexts.EndCloses | src/agent/native-responses.ts:639-647 | the end of the text ends its last line and its last group |
| SseTexts.TrimIsMiddle | src/agent/native-responses.ts:597-599 | trimming leaves what is between the white space at both ends |
| SseParser.LinesSplit | src/agent/native-responses.ts:628-638 | the lines of a text are the lines of its complete part followed by those of the rest |
| SseParser.ReadSplit | src/agent/native-responses.ts:605-625 | groups closed by a blank line are read independently of what follows |
| SseParser.AbsorbReads | src/agent/native-responses.ts:605-625 | taking in one line amounts to reading the lines so far with that line |
| SseParser.FlushReads | src/agent/native-responses.ts:577-603 | flushing reads the open group, whether a blank line or the end closes it |
| StreamProgress.RequestHttpSseEvents | src/agent/native-responses.ts:496-556 | however the text is cut and whether or not the stream breaks off, the flag says whether one of the events delivered so far is useful: all of the text at its end, the closed groups when it broke |
| StreamProgress.UsefulIffOnTheWire | src/agent/native-responses.ts:688-699 | an event counts as useful exactly when it shows text on the wire or a tool call, by its name and the fields of its payload |
| StreamProgress.NamedEventCounts | src/agent/native-responses.ts:688-699 | the same for the event of a literal text |
| StreamProgress.AtMostOneUnseen | src/agent/native-responses.ts:577-647 | of the events in the text that arrived at most the last has not been delivered |
| StreamProgress.UnseenIff | src/agent/native-responses.ts:688-699 | the text holds a useful event that the flag does not tell exactly when the last event is the first useful one and its group is open |
| StreamProgress.OpenGroupUnseen | src/agent/native-responses.ts:605-625 | a group cut off in front of its blank line is not delivered, whatever its event |
| StreamRetry.UnsafeRetryIff | src/agent/executor.ts:1116-1135 | the request is sent again unchanged although a useful event had arrived exactly when the failure was transient, retries are left and that event was such a one |
| StreamItems.CollectDoneItems | src/agent/native-responses.ts:751-855 | the items are the merged records, each once, by output index and then first appearance when all indexes are known, and by first appearance otherwise |
| StreamCalls.AnnouncedLast | src/agent/native-responses.ts:764-778 | of an item id the last announcement counts, wherever in the stream it stands |
| StreamCalls.NothingDone | src/agent/native-responses.ts:779-786 | announcements alone collect nothing |
| StreamCalls.LoneItem | src/agent/native-responses.ts:797-826 | a lone finished item is collected as it is exactly when it says what type it is |
| StreamCalls.LoneArguments | src/agent/native-responses.ts:798-822 | a lone arguments.done collects the call announced last under its item id, with its own text as arguments; its own call id, name and output index come first, the announced ones else; nothing without a call id, a name or a text |
| StreamCalls.NamelessArguments | src/agent/native-responses.ts:799-811 | without an item id it collects nothing |
| StreamItems.MergeEvents | src/agent/native-responses.ts:779-848 | the loop computes the merge of the stream's finished records, with distinct sequence numbers |
| StreamItems.SortValues | src/agent/native-responses.ts:849-853 | sorting loses and repeats nothing and leaves a strict order |
| StreamItems.FirstSeen | src/agent/native-responses.ts:845 | an entry keeps the place where its key first appeared |
| StreamItems.SharedIdentityIff | src/agent/native-responses.ts:823-847 | two entries of a stream are records of one call exactly when the last call id, id and type under two keys name it, one of them being a key that is not the call's own and that a call and another record both have |
| StreamItems.CollisionSharesIdentity | src/agent/native-responses.ts:823-847 | a stream of three finished records that leaves one call identity in two entries |
| StreamItems.SurvivesIff | src/agent/native-responses.ts:826-847 | a finished record that is not a call has an unchanged entry of its own exactly when no call of the stream has its key |
| StreamItems.FinalArguments | src/agent/native-responses.ts:830-838 | under every key the final arguments text is the longest of those since the last record whose arguments are present and not text (or that is not a call), and there is one exactly when such a text came |
| StreamItems.LongestKeptIff | src/agent/native-responses.ts:830-838 | the longest text ever seen is kept exactly when no strictly longer text precedes such a record |
| StreamItems.LastValueWins | src/agent/native-responses.ts:826-839 | every other property of an entry is there exactly when some record gave it, with the value given last |
| StreamItems.NonTextArgumentsWin | src/agent/native-responses.ts:830-838 | for every call and text: one later record with other arguments wipes the text out |
| StreamItems.CollidingKeysLoseARecord | src/agent/native-responses.ts:826-828 | a stream in which a call id spelled like a nameless record's key makes two finished records one |
| Json.EqualIffSameMeaning | src/agent/programmatic-contracts.ts:736-752 | the comparison that visits only the left keys decides equality of JSON values up to key order |
| Json.AgreeIffSameEntries | src/agent/programmatic-contracts.ts:744-750 | with equally many distinct keys, agreement on the left keys covers all right keys |
| Json.EqualityLaws | src/agent/programmatic-contracts.ts:736-752 | deep equality is reflexive, symmetric and transitive |
| Json.KeyOrderIrrelevant | src/agent/programmatic-contracts.ts:736-752 | reordering an object's fields leaves it equal |
| Json.WrittenTwice | src/agent/programmatic-contracts.ts:460-476 | a value read back from JSON text is written as that text again |
| SchemaValidator.ValidateJsonSchema | src/agent/programmatic-contracts.ts:485-489 | valid exactly when the value satisfies the schema's declarative reading; the errors are the capped report of the node's errors, a beginning of all of them, and at most eleven |
| SchemaKeywords.EveryKeywordIff | src/agent/programmatic-contracts.ts:574-718 | a schema without alternatives is satisfied exactly when each of its keywords is satisfied by itself, no key is undeclared where the schema is closed, and the value is no number JSON lacks |
| SchemaKeywords.AnyOfIff | src/agent/programmatic-contracts.ts:582-591 | with alternatives nothing else is looked at: one of them is satisfied |
| SchemaKeywords.TypeWordIff | src/agent/programmatic-contracts.ts:720-734 | each of the seven type words is satisfied exactly by the values of that kind; an integer is a finite number without fraction |
| SchemaKeywords.WordIff | src/agent/programmatic-contracts.ts:720-734 | any other word is satisfied by nothing |
| SchemaKeywords.TypeListIff | src/agent/programmatic-contracts.ts:720-722 | a list of type words asks for one of them |
| SchemaKeywords.WholeIff | src/agent/programmatic-contracts.ts:730 | a whole number is one equal to an integer |
| SchemaKeywords.ConstIff | src/agent/programmatic-contracts.ts:593-596 | a constant is satisfied exactly by the values deeply equal to it |
| SchemaKeywords.EnumIff | src/agent/programmatic-contracts.ts:598-601 | an enumeration asks for a value deeply equal to one of its own |
| SchemaKeywords.LengthIff | src/agent/programmatic-contracts.ts:620-625 | bounds on the length of a text, both included; a bound that is no number is none |
| SchemaKeywords.ItemCountIff | src/agent/programmatic-contracts.ts:665-670 | bounds on the number of items, both included |
| SchemaKeywords.NumberRangeIff | src/agent/programmatic-contracts.ts:651-656 | bounds on a number, both included, both zeros alike |
| SchemaKeywords.EndlessBounds | src/agent/programmatic-contracts.ts:651-656 | infinite bounds, and one that is not a number |
| SchemaKeywords.PatternIff | src/agent/programmatic-contracts.ts:626-635 | a pattern asks the expression; one that is no expression is satisfied by nothing |
| SchemaKeywords.FormatIff | src/agent/programmatic-contracts.ts:636-638 | of the formats only date-time asks for something |
| SchemaKeywords.UniqueIff | src/agent/programmatic-contracts.ts:671-678 | unique items are no two deeply equal |
| SchemaKeywords.ItemsIff | src/agent/programmatic-contracts.ts:679-683 | a schema for the items is satisfied by each of them |
| SchemaKeywords.RequiredIff | src/agent/programmatic-contracts.ts:693-700 | every required key occurs |
| SchemaKeywords.PropertiesIff | src/agent/programmatic-contracts.ts:709-717 | the value of each declared key that occurs satisfies the schema declared for it |
| SchemaKeywords.ClosedIff | src/agent/programmatic-contracts.ts:701-708 | a closed object has no undeclared keys |
| SchemaKeywords.OtherKindsPass | src/agent/programmatic-contracts.ts:609-612 | a keyword about one kind of value lets every value of another kind pass |
| SchemaValidator.NoErrorsIff | src/agent/programmatic-contracts.ts:574-718 | the uncapped error list of a node is empty exactly when the value satisfies the schema |
| SchemaValidator.ReportIsPrefix | src/agent/programmatic-contracts.ts:574-580 | the capped report is a beginning of the uncapped list, and all of it when it is short of the cap |
| SchemaValidator.MoreThanCapIff | src/agent/programmatic-contracts.ts:614-684 | more than eight errors are reported exactly when the errors one node adds in one go start below the cap and end beyond it |
| SchemaValidator.ElevenIsReached | src/agent/programmatic-contracts.ts:614-684 | a schema and a value with eleven reported errors |
| SchemaValidator.ValidateSchemaNode | src/agent/programmatic-contracts.ts:574-612 | below the cap a node appends errors to the shared list exactly when the value fails there; a full list is left alone |
| SchemaValidator.SomeAlternative | src/agent/programmatic-contracts.ts:582-591 | anyOf holds exactly when some alternative does, each tried with a list of its own |
| SchemaValidator.ValidateString | src/agent/programmatic-contracts.ts:614-639 | string keywords fail exactly when an error is appended |
| SchemaValidator.ValidateNumber | src/agent/programmatic-contracts.ts:641-657 | number keywords fail exactly when an error is appended |
| SchemaValidator.ValidateArray | src/agent/programmatic-contracts.ts:659-684 | array keywords and items fail exactly when an error is appended, although items are no longer visited once the list is full |
| SchemaValidator.FindDuplicate | src/agent/programmatic-contracts.ts:671-678 | finds a duplicate exactly when two items are deeply equal |
| SchemaValidator.ValidateObject | src/agent/programmatic-contracts.ts:686-718 | object keywords and properties fail exactly when an error is appended, early returns included |
| SchemaValidator.EqualValuesValidateAlike | src/agent/programmatic-contracts.ts:574-752 | deeply equal values satisfy the same schemas |
| ErrorArms.ErrorArmIff | src/agent/programmatic-contracts.ts:504-561 | for each of the nine tools the fixed error object satisfies the error arm of the tool's schema exactly when its message has 1 to 256 characters |
| ErrorArms.FixedErrorsSatisfy | src/agent/programmatic-contracts.ts:428-434 | with each of the three messages every tool's error satisfies the tool's whole schema, whatever its other arms |
| ErrorSchemas.FacadeErrorIff | src/agent/programmatic-contracts.ts:551-560 | an object is an error of a source exactly when it has the six fields as they should be, and no others |
| ErrorSchemas.CountErrorIff | src/agent/programmatic-contracts.ts:66-73 | the counting tool's errors name no source and may leave out whether they were blocked |
| ErrorArms.FixedErrorsFit | src/config.ts:227 | all of them fit the smallest limit that can be configured |
| ProgramOutput.SerializeProgrammaticToolOutput | src/agent/programmatic-contracts.ts:456-483 | whatever a tool returned, what is emitted satisfies its schema within the size limit: the value's own text when that does, the fitting error arm otherwise; it throws exactly when that arm is longer than the limit |
| ProgramOutput.SerializeOutputError | src/agent/programmatic-contracts.ts:491-502 | the error arm always passes its own schema: only its length can make the serializer throw |
| ProgramOutput.ThrowsIff | src/agent/programmatic-contracts.ts:456-502 | the serializer throws exactly when the value may not be emitted and the tool's error is longer than the limit |
| ProgramOutput.AlwaysEmits | src/agent/programmatic-contracts.ts:456-502 | under every limit that can be configured something is emitted |
| ProgramOutput.EmissionSays | src/agent/programmatic-contracts.ts:428-434 | an emitted error is a plain failure, blocked by nobody, and says whether the value had no text, a text too long, or one that failed its schema |
| ProgramOutput.EmittedAgain | src/agent/executor.ts:2456 | an emitted output passes through the serializer again unchanged |
| ResponseAdmission.EveryRunKeepsInvariant | src/agent/response-admission.ts:16-82 | in every interleaving of acquires, timeouts, aborts and releases: active counts the held slots and stays in bounds, the queue is the unsettled tickets in order and stays in bounds, waiting means all slots are taken, grants are in arrival order, every ticket settles once |
| AdmissionOutcomes.EveryEventMoves | src/agent/response-admission.ts:22-75 | in every run each event does to the tickets what they themselves call for, without counter or queue: who is granted, queued or refused and for which reason, and that a release serves the one who has waited longest |
| ResponseAdmission.SettledForGood | src/agent/response-admission.ts:33-56 | a settled ticket stays as it is, but for the release of a held slot |
| ResponseAdmission.ReleaseTwiceIsOnce | src/agent/response-admission.ts:62-75 | a second release changes nothing, whatever happened in between |
| ResponseAdmission.NobodyOvertakes | src/agent/response-admission.ts:67-71 | nobody is served before a waiter that came earlier and is still queued |
| ResponseAdmission.ResponseAdmissionController.Reachable | src/agent/response-admission.ts:16-82 | at every point the controller's state is one that some interleaving leads to, and has all of that |
| ResponseAdmission.ResponseAdmissionController.Acquire | src/agent/response-admission.ts:22-56 | acquire takes exactly the acquire step and hands out a handle, a waiter or a reason |
| ResponseAdmission.ResponseAdmissionController.GiveUp | src/agent/response-admission.ts:37-51 | the timer and the abort listener take exactly the timeout or abort step, even after the waiter was served |
| ResponseAdmission.ResponseAdmissionController.Release | src/agent/response-admission.ts:62-75 | a release handle takes exactly the release step; the first waiter gets the slot and a new handle |
| ResponseAdmission.RemoveWaiter | src/agent/response-admission.ts:38-39 | removing a waiter leaves the others in order |
| Compaction.SelectKeepWindow | src/agent/compact.ts:228-239 | keeps the longest ending of the thread within the token budget, or the last message alone |
| Compaction.KeepWindowUnique | src/agent/compact.ts:228-239 | that description determines the window |
| Compaction.SelectCandidates | src/agent/compact.ts:254-261 | takes as many candidates as the input budget holds, but one at least |
| Compaction.BuildTranscript | src/agent/compact.ts:368-380 | the transcript never exceeds the budget and shows every selected candidate |
| Compaction.CapOnLineBoundary | src/agent/compact.ts:47-52 | the capped summary is a beginning of the text, cut at its last line break when that lies in the second half and at the limit otherwise |
| Compaction.PrunedConversation | src/agent/compact.ts:293-297 | the two deletions remove exactly the summarized messages from the conversation |
| Compaction.ThreadStore.Append | src/agent/compact.ts:216-218 | a stored row joins the conversation and nothing is lost |
| Compaction.ThreadStore.SelectForSummary | src/agent/compact.ts:216-261 | there is a plan exactly when more than two messages are stored and some lie before the window; otherwise only tool rows before the window go |
| Compaction.ThreadStore.CommitSummary | src/agent/compact.ts:274-310 | the commit is all or nothing: it removes exactly the candidates and the tool rows before the window, moves last_message_id forward to the last of them and keeps the window |
| Compaction.CandidatesFill | src/agent/compact.ts:250-261 | the candidates of every plan fit the transcript together, each with its whole line when there are several |
| Compaction.ThreadStore.CompactThread | src/agent/compact.ts:208-312 | a pass commits exactly when there was a plan, the summarizer answered and nobody gave up; the summarizer is shown every candidate; the rows of the keep window survive; every message ever appended is summarized or still stored, rows that arrived meanwhile included |
| Compaction.ThreadStore.CompactThreadWithRetry | src/agent/compact.ts:177-202 | up to three passes, each after one whose summarizer failed; it throws exactly when the third fails as well; what it commits is the plan made from the conversation as it stood when the last pass began, the transcript of that pass shows every candidate of the plan, and the rows of its keep window survive |
| SplitText.CutInFront | src/discord/format.ts:60-83 | a cut in front of a text that reassembles gives a text that reassembles |
| SplitText.ChooseCutCuts | src/discord/format.ts:60-72 | a cut is at the last newline when that comes in the last two fifths, else at the last space that does, else at the limit |
| DiscordSplit.ChunksReassemble | src/discord/format.ts:57-83 | chunks and the white space skipped between them concatenate back to the text, and every chunk fits |
| DiscordSplit.CutText | src/discord/format.ts:57-83 | the loop ends and cuts as specified |
| DiscordSplit.FirstCut | src/discord/format.ts:59-79 | the first chunk ends at such a cut, and the rest begins behind the white space there |
| DiscordSplit.RebalanceCodeFences | src/discord/format.ts:93-107 | every chunk is reopened and closed as the parity of the messages before it demands |
| DiscordSplit.MessageEven | src/discord/format.ts:95-106 | every message but the last has an even number of fence markers |
| DiscordSplit.OpenIsParity | src/discord/format.ts:94-101 | a chunk is reopened exactly when the chunks before it hold an odd number of markers |
| DiscordSplit.CountsAdd | src/discord/format.ts:57-107 | the markers of two texts add up to those of the text they make, and one more exactly when the cut takes a marker apart |
| DiscordSplit.OpenReadsTextIff | src/discord/format.ts:57-107 | a chunk is reopened as the markers of the text before it demand exactly when the cuts before it took an even number of markers apart |
| DiscordSplit.MarkerCutInTwo | src/discord/format.ts:57-83 | texts whose only marker a hard cut takes apart, so that neither chunk has it |
| DiscordSplit.ClosingAddsOne | src/discord/format.ts:102-104 | the closing marker adds exactly one marker |
| DiscordSplit.SplitForDiscord | src/discord/format.ts:50-86 | for every text and limit: termination, content, even messages but the last, and messages within any limit from 72 on |
| CodeBlocks.EndsInsideFence | src/agent/finalizer.ts:154-165 | the loop over the stateful expression decides whether reading the text ends inside a block |
| CodeBlocks.ClosingCloses | src/agent/finalizer.ts:137-139 | one closing marker closes an open text, whatever is in it |
| CodeBlocks.InsideAtEnd | src/agent/finalizer.ts:154-165 | behind a text that ends inside a block, what follows is read from inside it |
| CodeBlocks.PlainReads | src/agent/finalizer.ts:154-165 | behind a text that ends outside and strands no opener, what follows reads as it does alone, but for a marker at its start when the text does not end a line |
| CodeBlocks.StrandedReads | src/agent/finalizer.ts:154-165 | behind a stranded opener, what follows is read from inside a block when its first line completes the opener, and else as it does alone, but for a marker at its start |
| CodeBlocks.StrandedIff | src/agent/finalizer.ts:117-125 | a text ends in an opener without its newline exactly when its last line is a marker and the lines before it do not end inside a block |
| TelegramSplit.MessageClosed | src/agent/finalizer.ts:132-144 | no rebalanced message ends inside an open fence |
| TelegramSplit.RebalanceFences | src/agent/finalizer.ts:132-144 | the loop sends every chunk reopened and closed as the messages before it demand |
| TelegramSplit.AvoidBacktickSplit | src/agent/finalizer.ts:98-105 | the cut moves before the run of backticks it touches, and splits a run only when the chunk is nothing else |
| TelegramSplit.AvoidSplitAfterOpeningFence | src/agent/finalizer.ts:117-125 | the head that is left ends in a stranded opener exactly when its last line is a marker and there is no line to cut before, or the cut moved before a marker that closes the block opened by the newline in front of it |
| TelegramSplit.OpenersAreMoved | src/agent/finalizer.ts:117-125 | a marker whose newline would open a block is always cut before, where there is a line to cut before |
| TelegramSplit.ClosersAreMovedIff | src/agent/finalizer.ts:117-125 | a marker that closes a block is cut before all the same exactly when its block opens at the newline in front of it |
| TelegramSplit.CloserCutOff | src/agent/finalizer.ts:117-125 | a text whose closing marker is cut off, leaving its opener at the end of the chunk |
| TelegramSplit.ChunkReadsIff | src/agent/finalizer.ts:132-165 | behind a text that strands no opener and ends in no backtick, a chunk as it is wrapped ends as it does in the text exactly when the text before is empty, open or ends a line, or the chunk has no marker at its start, or that marker makes no difference |
| TelegramSplit.StrandedChunkIff | src/agent/finalizer.ts:132-165 | behind a stranded opener whose newline the cut skips, the text reads the chunk from inside a block; the chunk as sent ends alike exactly when both readings of it do |
| TelegramSplit.OpenBeforeReadsText | src/agent/finalizer.ts:132-144 | a chunk is reopened exactly when the original text up to it ends inside a block, as long as no cut strands an opener, cuts a run of backticks or makes a chunk read otherwise than in the text |
| TelegramSplit.FirstPartingIff | src/agent/finalizer.ts:132-144 | at the first cut that may do the last of these, the next chunk is reopened wrongly exactly when it does |
| TelegramSplit.FalseOpener | src/agent/finalizer.ts:132-144 | an inline marker brought to the start of the last chunk makes it end open, which the text does not |
| TelegramSplit.FalseOpenerReached | src/agent/finalizer.ts:46-87 | for every text of a word and an inline marker of the right lengths that cut is made |
| TelegramSplit.CutBehindWordExample | src/agent/finalizer.ts:46-87 | there are such texts |
| TelegramSplit.ChunksReassemble | src/agent/finalizer.ts:54-84 | chunks and the white space skipped between them concatenate back to the text, and every chunk fits |
| TelegramSplit.CutText | src/agent/finalizer.ts:54-84 | the loop ends and cuts as specified |
| TelegramSplit.FirstCut | src/agent/finalizer.ts:57-80 | the first chunk ends at such a cut, moved off backticks and markers in a text with fences, and the rest begins behind the white space there |
| TelegramSplit.ProgressIff | src/agent/finalizer.ts:57-80 | a cut makes progress exactly when the limit is positive or white space can be skipped |
| TelegramSplit.SplitForTelegram | src/agent/finalizer.ts:46-87 | for every text: content, termination, messages within any limit from 9 on, and no message left open exactly when the text was split or was closed already |
| ReadSubagents.EveryScheduleKeepsInvariant | src/agent/read-subagents.ts:122-311 | in every interleaving of workers and root-turn reads: at most the configured number of workers run, both shared budgets hold, every busy worker has a task of its own, every slot is written at most once with its own task's result |
| ReadSubagents.WorkersAreBounded | src/agent/read-subagents.ts:130-135 | the number of workers is at most the configured one, and none run exactly when none are allowed or there is no task |
| SubagentOutcomes.AnswerGives | src/agent/read-subagents.ts:236-282 | a task is completed exactly by a text with evidence and no gap behind it; anything less is partial with evidence and failed without; calls within the budget are dispatched or noted as a gap |
| SubagentOutcomes.AskGives | src/agent/read-subagents.ts:213-218 | the model is asked exactly while iterations, calls and time are left, and each asking costs one call |
| SubagentOutcomes.ReadGives | src/agent/read-subagents.ts:283-301 | every dispatched call is a piece of evidence, and one without use is a gap |
| SubagentOutcomes.TakeGives | src/agent/read-subagents.ts:139-155 | tasks are taken in order; an aborted batch or missing tools fail a task at once |
| SubagentOutcomes.CrashGives | src/agent/read-subagents.ts:151-155 | a worker that breaks down fails its task |
| SubagentOutcomes.SettleGives | src/agent/read-subagents.ts:151-152 | an answer is put in the slot of its own task |
| SubagentOutcomes.RootGives | src/agent/executor.ts:1672-1680 | the root turn's reads come out of the same budget, or are not made |
| SubagentOutcomes.OthersStay | src/agent/read-subagents.ts:137-156 | an event of one worker leaves the others where they were |
| SubagentOutcomes.EveryAnswerIsHonest | src/agent/read-subagents.ts:322-343 | in every schedule an answer is a failure exactly when it has no evidence |
| ReadSubagents.AllAnswered | src/agent/read-subagents.ts:139-156 | when all workers are done every task has exactly one answer in its own slot |
| ReadSubagents.StepUsesWork | src/agent/read-subagents.ts:140-154 | every worker step that changes anything uses up work |
| ReadSubagents.PoolTerminates | src/agent/read-subagents.ts:139-156 | no schedule gets more effective steps out of the pool than the work it starts with |
| ReadSubagents.QuietIffFinished | src/agent/read-subagents.ts:139-156 | no worker can step exactly when all are done |
| ReadSubagents.EveryScheduleCanFinish | src/agent/read-subagents.ts:137-156 | whatever has happened, a bounded number of further steps ends the pool with every task answered |
| ReadSubagents.FindLargest | src/agent/read-subagents.ts:353-360 | finds the first of the largest payloads, if there is any |
| ReadSubagents.ReduceLargest | src/agent/read-subagents.ts:361-368 | leaving out a largest payload lowers the number of large payloads, notes one gap and touches nothing smaller |
| ReadSubagents.ReducedLeaves | src/agent/read-subagents.ts:361-368 | one payload gives way to the notice, the task is complete no longer, one gap says so, and the rest stays |
| ReadSubagents.BoundAggregate | src/agent/read-subagents.ts:348-371 | the loop ends within the limit or with nothing large left; every round starts from a text that is too long and leaves out the first of the largest payloads, noting one gap |
| ReadSubagents.StepGrowsIff | src/agent/read-subagents.ts:361-368 | for every result and payload: leaving it out makes the text longer exactly when its size and the status saving are below the notice and the gap that take its place |
| ReadSubagents.StepCanGrow | src/agent/read-subagents.ts:361-368 | a step the loop takes that makes the text longer |
| ReadSubagents.BoundBatchOutputs | src/agent/executor.ts:2461-2474 | the same loop over a local batch ends within the limit or with no output above 512 characters; every round replaces the first of the largest outputs by its tool's refusal |
| ToolRegistry.EffectiveToolRegistry.PreviewAdd | src/agent/tool-registry.ts:55-96 | refuses exactly the batches that conflict or are unsupported, and otherwise foretells the new functions, namespaces, bytes and repeated names of loading |
| ToolRegistry.EffectiveToolRegistry.Add | src/agent/tool-registry.ts:98-104 | loads what the preview foretold; a refused batch changes nothing |
| RegistryContents.NamesLoaded | src/agent/tool-registry.ts:98-123 | after a batch a name is loaded exactly when it was before, or a function or a namespace of the batch declares it |
| RegistryContents.NamespacesLoaded | src/agent/tool-registry.ts:80-85 | and a namespace is known exactly when it was before, or has a name and brings a new function |
| RegistryContents.FlattenBrings | src/agent/tool-registry.ts:115-123 | the entries of a batch are exactly what its tools declare |
| RegistryContents.BytesOfText | src/agent/tool-registry.ts:79-84 | schema bytes are counted as UTF-8 |
| ToolRegistry.LoadableSnoc | src/agent/tool-registry.ts:61-86 | checking each entry against what is loaded before it decides whether the batch can be loaded |
| ToolRegistry.LoadOneWeight | src/agent/tool-registry.ts:79-85 | a new function weighs its text, and its namespace's name when that is new |
| ToolRegistry.ReloadIsNoOp | src/agent/tool-registry.ts:67-77 | loading a batch again changes nothing |
| ToolRegistry.FilesNew | src/agent/tool-registry.ts:100-102 | filing the last entry of every new name gives what loading in order gives |
| ToolRegistry.ChargeDelta | src/agent/client-tool-search.ts:42-49 | the budget test on a delta is the test on the real growth since the turn began, and charging keeps the counters true |
| ToolRegistry.Discover | src/agent/executor.ts:1396-1431 | a discovery round is refused, over budget, empty once too often or applied exactly as the real growth of the registry says, and changes something only when applied |
| ToolRegistry.DiscoverRounds | src/agent/executor.ts:1396-1431 | over any sequence of rounds the counters are the growth of the registry since the turn began, within the three budgets, and the rounds end with the first that is not applied, for the reason its real growth gives |
| ToolCalls.ValidateEffectiveToolCalls | src/agent/tool-registry.ts:189-240 | the envelope holds exactly for 1 to 16 fresh distinct ids; one call that is not declared, not an object or against its schema rejects them all, itself for its own reason |
| ToolCalls.CheckCall | src/agent/tool-registry.ts:209-230 | a call is sound exactly when its function is loaded and its parsed arguments satisfy the function's schema; at most three errors are told |
| ChatGuard.PruneTwice | src/chat/shared.ts:307-309 | pruning early and then late is pruning late |
| ChatGuard.SameActorIff | src/chat/shared.ts:303-305 | requests count together for one user, and for one chat when no user is known |
| ChatGuard.PruneCounts | src/chat/shared.ts:307-309 | what pruning leaves is as many as there are accepted starts less than a window ago |
| ChatGuard.AtMostMaxPerWindow | src/chat/shared.ts:279-290 | a sequence of starts the limiter let through has at most the maximum in any window-long interval |
| ChatGuard.ChatGuard.SweepRecentRequestStarts | src/chat/shared.ts:230-236 | at most once per window, a sweep drops exactly the expired actors, and it changes no later decision |
| ChatGuard.ChatGuard.EvaluateChatRequestAllowance | src/chat/shared.ts:251-291 | for clocks that do not go back, the pruned and swept limiter accepts exactly when fewer than the maximum of the actor's accepted starts are less than a window ago |
| ChatGuard.ChatGuard.RateHolds | src/chat/shared.ts:251-291 | at any time every actor's accepted starts respect the rate in every half-open window |

## Assumptions

- Provider output holds no outputs of client calls, and function calls carry their id in `call_id`. A client search
  item without a usable id counts as a note, like a hosted search.
- Context messages, summaries and nudges are notes: they hold no calls.
- Clocks given to the limiter do not go back. `0.6 * limit` is taken exactly.
- The argument validators never produce an empty comparison key (they join at least one id).
- The fixed refusal of a tool is at most 512 characters of JSON, and JSON text has at most six characters for one of a
  string, besides its quotes.
- Key comparison is a total order where a statement about argument keys says so, and total and transitive in the others.

## Left out

- TurnRuns.RunNativeAgentLoop: interruptions (deadline, changed identity, abort) are one reply that ends the turn; a turn interrupted before its request counts that request.
- TurnState: the final text of a response, reasons why a tool call is rejected, shape errors of programs, tool results, pending outcomes and the size test that starts compaction are inputs of the reply; the parts that decide them are modelled in `ToolRegistry`, `ProgramBatch`, `SideEffects` and `Compaction`. The developer prompt, usage accounting and stored messages are not modelled.
- Compaction.BuildTranscript: the token estimate is an uninterpreted function.
- SchemaValidator.ValidateString: regular expressions and date-time parsing are uninterpreted.
- SideEffectSteps.TwiceIffOverlap: a tool that throws ends the turn, and the memo with it; rejected calls and spent read budgets are left out.
- ErrorArms.FixedErrorsSatisfy: the arms of a schema that say what a success looks like are parameters.
- SideEffects.SortJsonSorts: integer-like keys, which JavaScript enumerates first, keep their sorted place here.
- ReadSubagents.EveryScheduleKeepsInvariant: workers are atomic steps between awaits, so the pool is a state machine and not a class; a worker's own item list is left out, being another instance of `TurnLoop.RoundFollows`.
- SseParser.ParseChunks: decoding bytes to text is not part of this model; data that is not JSON is the payload's own affair.
- StreamProgress.RequestHttpSseEvents: how an event's payload reads is a parameter; HTTP status errors, which come before any event, are left out.
- ToolCalls.ValidateEffectiveToolCalls: how a text reads as JSON is a parameter.
- TurnChains.EveryServerRequestIsPaired: takes the provider to give no call an id of an earlier turn.
- DiscordSplit.SplitForDiscord, TelegramSplit.SplitForTelegram: the text is the sanitized or converted one; characters stand for UTF-16 units.
- TelegramSplit.SplitForTelegram: asks for a positive chunk limit, because without one the loop can stall (see `TelegramSplit.ProgressIff`).
- The ranking of tool searches, tool executors, HTTP, SQLite, timers and abort signals.
- Prompts, classifiers of user text, error message texts and activity reporting.
- Secrets, sign-in, migrations, plan finalization, the command line and the chat front ends: library-bound or only easy members.
