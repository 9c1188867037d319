/** Server mode: what the provider reads for a request, the items it keeps under the response id and the new ones. */
module TurnChains {
  import opened Options
  import opened TurnItems
  import opened TurnLoop
  import opened TurnRuns
  import opened TurnState

  /** What the provider keeps under the response id the next request names: all of the conversation up to there. */
  function NextChain(s: Turn, chain: seq<Item>, reply: Reply, s': Turn): seq<Item> {
    if !Truthy(s'.previousId) then []
    else if reply.Received? then chain + s.pending + reply.response.output
    else chain
  }

  /** The request reads as a paired list, and its ids are those of the turn or of the turns before. */
  predicate Reads(s: Turn, chain: seq<Item>, prior: set<string>) {
    Paired(chain + s.pending) && Ids(chain + s.pending) <= s.seen + prior
  }

  predicate ChainInv(cfg: Config, s: Turn, chain: seq<Item>, prior: set<string>) {
    Inv(cfg, s) && Reads(s, chain, prior)
  }

  /** The provider gives no call an id of an earlier turn. */
  predicate FreshOf(prior: set<string>, reply: Reply) {
    reply.Received? ==> Ids(reply.response.output) !! prior
  }

  // ----- what one response adds to what is read -----

  lemma RoundReads(base: seq<Item>, known: set<string>, r: Response)
    requires ValidResponse(r) && DistinctIds(CallsIn(r.output)) && Ids(r.output) !! known
    requires Paired(base) && Ids(base) <= known
    ensures var read := base + r.output + OutputItems(CallsIn(r.output), r.results);
            Paired(read) && Ids(read) <= known + Ids(r.output)
  {
    var outputs := OutputItems(CallsIn(r.output), r.results);
    RoundIsPaired(r.output, outputs);
    PairedConcat(base, r.output + outputs);
    IdsConcat(base, r.output + outputs);
    assert base + r.output + outputs == base + (r.output + outputs);
  }

  lemma NotesRead(base: seq<Item>, output: seq<Item>, note: seq<Item>)
    requires Paired(base) && OnlyNotes(output) && OnlyNotes(note)
    ensures Paired(base + output + note) && Ids(base + output + note) == Ids(base)
    ensures Paired(note) && Ids(note) == {}
  {
    NotesFollow(base, output);
    NotesFollow(base + output, note);
    NotesArePaired(note);
  }

  /** The list the next request reads, when it follows the response at hand. */
  function ReadNext(base: seq<Item>, r: Response, s': Turn): seq<Item> {
    (if Truthy(s'.previousId) then base + r.output else []) + s'.pending
  }

  predicate ReadsOn(base: seq<Item>, known: set<string>, r: Response, s': Turn) {
    var read := ReadNext(base, r, s');
    Paired(read) && Ids(read) <= known + Ids(r.output) && (Truthy(s'.previousId) ==> s'.previousId == r.id)
  }

  lemma DiscoverReads(cfg: Config, base: seq<Item>, known: set<string>, s: Turn, r: Response)
    requires ValidResponse(r) && cfg.server && Discover(cfg, s, r).Continue?
    requires Paired(base) && Ids(base) <= known && Ids(r.output) !! known
    ensures ReadsOn(base, known, r, Discover(cfg, s, r).turn)
  {
    RoundReads(base, known, r);
  }

  lemma RunToolsReads(cfg: Config, base: seq<Item>, known: set<string>, s: Turn, r: Response)
    requires ValidResponse(r) && cfg.server && RunTools(cfg, s, r).Continue? && Truthy(r.id)
    requires DistinctIds(CallsIn(r.output))
    requires Paired(base) && Ids(base) <= known && Ids(r.output) !! known
    ensures ReadsOn(base, known, r, RunTools(cfg, s, r).turn)
  {
    var outputs := OutputItems(CallsIn(r.output), r.results);
    var nudge := if s.sameTool >= cfg.maxSameTool then [ANTI_LOOP] else [];
    RoundReads(base, known, r);
    NotesFollow(base + r.output + outputs, nudge);
    assert base + r.output + (outputs + nudge) == base + r.output + outputs + nudge;
  }

  lemma AnswerReads(cfg: Config, base: seq<Item>, known: set<string>, s: Turn, r: Response)
    requires cfg.server && OnlyNotes(r.output) && Answer(cfg, s, r).Continue?
    requires Paired(base) && Ids(base) <= known
    ensures ReadsOn(base, known, r, Answer(cfg, s, r).turn)
  {
    NotesRead(base, r.output, [Note(Text, r.nudge)]);
    NotesRead(base, r.output, []);
  }

  lemma DispatchReads(cfg: Config, base: seq<Item>, prior: set<string>, s: Turn, r: Response)
    requires ValidResponse(r) && cfg.server && Dispatch(cfg, s, r).Continue?
    requires Paired(base) && Ids(base) <= s.seen + prior && Ids(r.output) !! prior
    ensures ReadsOn(base, s.seen + prior, r, Dispatch(cfg, s, r).turn)
  {
    CallIds(r.output);
    if HasSearch(CallsIn(r.output)) {
      FreshIds(r.output, s.seen);
      DiscoverReads(cfg, base, s.seen + prior, s, r);
    } else {
      NotedReads(cfg, base, prior, s, Noted(s, r), r);
    }
  }

  lemma NotedReads(cfg: Config, base: seq<Item>, prior: set<string>, s: Turn, s1: Turn, r: Response)
    requires ValidResponse(r) && cfg.server && (CallsIn(r.output) == [] ==> OnlyNotes(r.output))
    requires CallsIn(r.output) != [] ==> Fresh(CallsIn(r.output), s.seen) && Truthy(r.id)
    requires (if CallsIn(r.output) == [] then Answer(cfg, s1, r) else RunTools(cfg, s1, r)).Continue?
    requires Paired(base) && Ids(base) <= s.seen + prior && Ids(r.output) !! prior
    ensures ReadsOn(base, s.seen + prior, r,
                    (if CallsIn(r.output) == [] then Answer(cfg, s1, r) else RunTools(cfg, s1, r)).turn)
  {
    if CallsIn(r.output) == [] {
      AnswerReads(cfg, base, s.seen + prior, s1, r);
    } else {
      FreshIds(r.output, s.seen);
      RunToolsReads(cfg, base, s.seen + prior, s1, r);
    }
  }

  /** The ids of a response are remembered with the pass. */
  lemma SeenGrows(cfg: Config, s: Turn, r: Response)
    requires ValidResponse(r) && Dispatch(cfg, s, r).Continue?
    ensures s.seen + Ids(r.output) <= Dispatch(cfg, s, r).turn.seen
  {
  }

  lemma DispatchedReads(cfg: Config, base: seq<Item>, prior: set<string>, s: Turn, r: Response)
    requires ValidResponse(r) && cfg.server && Dispatch(cfg, s, r).Continue?
    requires Paired(base) && Ids(base) <= s.seen + prior && Ids(r.output) !! prior
    ensures ReadsWell(base, prior, r, Dispatch(cfg, s, r).turn)
  {
    DispatchReads(cfg, base, prior, s, r);
    SeenGrows(cfg, s, r);
  }

  predicate ReadsWell(base: seq<Item>, prior: set<string>, r: Response, s': Turn) {
    var read := ReadNext(base, r, s');
    Paired(read) && Ids(read) <= s'.seen + prior && (Truthy(s'.previousId) ==> s'.previousId == r.id)
  }

  // ----- one pass -----

  lemma ResponseReads(cfg: Config, s: Turn, chain: seq<Item>, prior: set<string>, r: Response)
    requires ValidResponse(r) && cfg.server && ChainInv(cfg, s, chain, prior) && Ids(r.output) !! prior
    requires OnResponse(cfg, s, r).Continue?
    ensures var s' := OnResponse(cfg, s, r).turn;
            Reads(s', NextChain(s, chain, Received(r), s'), prior) && (Truthy(s'.previousId) ==> s'.previousId == r.id)
  {
    var s1, base := Receive(cfg, s, r), chain + s.pending;
    if !Compacts(s1, r) {
      DispatchedReads(cfg, base, prior, s1, r);
    } else if r.compaction.CompactionFailed? {
      DispatchedReads(cfg, base, prior, s1.(compacted := true), r);
    } else {
      CompactedReads(cfg, s, base, prior, r);
    }
  }

  lemma CompactedReads(cfg: Config, s: Turn, base: seq<Item>, prior: set<string>, r: Response)
    requires ValidResponse(r) && cfg.server && Inv(cfg, s) && Ids(r.output) !! prior
    requires Paired(base) && Ids(base) <= s.seen + prior
    requires r.compaction.Compacted? && Compact(cfg, Receive(cfg, s, r), r).Continue?
    ensures ReadsWell(base, prior, r, Compact(cfg, Receive(cfg, s, r), r).turn)
  {
    var s1 := Receive(cfg, s, r);
    var (items, done) := Rebuild(cfg, s1, r);
    if done {
      RebuildKeeps(cfg, Resent(cfg, s), s1, r);
      assert [] + items == items;
    } else {
      DispatchedReads(cfg, base, prior, s1.(compacted := true, previousId := None, pending := items), r);
    }
  }

  lemma FailureReads(cfg: Config, s: Turn, chain: seq<Item>, prior: set<string>, f: Reply)
    requires f.Failure? && ValidReply(f) && cfg.server && ChainInv(cfg, s, chain, prior)
    requires Truthy(s.previousId) || chain == []
    requires OnFailure(cfg, s, f).Continue?
    ensures var s' := OnFailure(cfg, s, f).turn; Reads(s', NextChain(s, chain, f, s'), prior)
  {
    var s' := OnFailure(cfg, s, f).turn;
    if !RetriesUnchanged(cfg, s, f) {
      NotesArePaired(f.context);
      assert [] + s'.pending == s'.pending;
    }
  }

  /** One pass keeps what the next request reads paired, and a response can only be continued under its own id. */
  lemma PassReads(cfg: Config, s: Turn, chain: seq<Item>, prior: set<string>, reply: Reply, s': Turn)
    requires cfg.server && ChainInv(cfg, s, chain, prior) && (Truthy(s.previousId) || chain == [])
    requires Follows(cfg, s, reply, s') && FreshOf(prior, reply)
    ensures ChainInv(cfg, s', NextChain(s, chain, reply, s'), prior)
    ensures Truthy(s'.previousId) ==> s'.previousId == if reply.Received? then reply.response.id else s.previousId
  {
    StepKeeps(cfg, s, reply);
    match reply
    case Interrupted =>
    case Failure(_, _, _, _, _) => FailureReads(cfg, s, chain, prior, reply);
    case Received(r) => ResponseReads(cfg, s, chain, prior, r);
  }

  // ----- whole turns -----

  /** What the provider keeps, pass by pass. */
  predicate Chains(states: seq<Turn>, replies: seq<Reply>, chains: seq<seq<Item>>) {
    && |chains| == |states| == |replies| + 1
    && (Truthy(states[0].previousId) || chains[0] == [])
    && forall i {:trigger replies[i]} :: 0 <= i < |replies| ==>
         chains[i + 1] == NextChain(states[i], chains[i], replies[i], states[i + 1])
  }

  /**
   * Every request of a server-mode turn, the items the provider already has followed by the new ones, pairs each
   * call with its one output.
   */
  lemma {:induction false} EveryServerRequestIsPaired(cfg: Config, states: seq<Turn>, replies: seq<Reply>,
      chains: seq<seq<Item>>, prior: set<string>, k: nat)
    requires cfg.server && Trace(cfg, states, replies) && Chains(states, replies, chains) && k < |states|
    requires ChainInv(cfg, states[0], chains[0], prior)
    requires forall i :: 0 <= i < |replies| ==> FreshOf(prior, replies[i])
    ensures Served(cfg, states[k], chains[k], prior)
    ensures Paired(chains[k] + RequestOf(states[k]).items)
  {
    if k > 0 {
      EveryServerRequestIsPaired(cfg, states, replies, chains, prior, k - 1);
      var reply := replies[k - 1];
      assert Follows(cfg, states[k - 1], reply, states[k])
          && chains[k] == NextChain(states[k - 1], chains[k - 1], reply, states[k]);
      PassServes(cfg, states[k - 1], chains[k - 1], prior, reply, states[k]);
    }
  }

  /** The provider reads the chain under the id the request names, and nothing before it when it names none. */
  predicate Served(cfg: Config, s: Turn, chain: seq<Item>, prior: set<string>) {
    ChainInv(cfg, s, chain, prior) && (Truthy(s.previousId) || chain == [])
  }

  lemma PassServes(cfg: Config, s: Turn, chain: seq<Item>, prior: set<string>, reply: Reply, s': Turn)
    requires cfg.server && Served(cfg, s, chain, prior) && Follows(cfg, s, reply, s') && FreshOf(prior, reply)
    ensures Served(cfg, s', NextChain(s, chain, reply, s'), prior)
  {
    PassReads(cfg, s, chain, prior, reply, s');
  }

  /** A turn that opens on a paired chain of earlier turns, or on none, starts this way. */
  lemma OpeningReads(cfg: Config, context: seq<Item>, items: seq<Item>, previousId: Option<string>, goal: string,
      chain: seq<Item>)
    requires cfg.server && OnlyNotes(context) && OnlyNotes(items) && Paired(chain)
    ensures ChainInv(cfg, Opening(cfg, context, items, previousId, goal), chain, Ids(chain))
  {
    OpeningKeeps(cfg, context, items, previousId, goal);
    NotesFollow(chain, Opening(cfg, context, items, previousId, goal).pending);
  }
}
