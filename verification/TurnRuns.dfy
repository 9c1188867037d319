/** Whole turns: bounded requests, no unsafe repeats, and the loop itself. */
module TurnRuns {
  import opened Options
  import opened TurnEndings
  import opened TurnItems
  import opened TurnLoop
  import opened TurnState

  /** One pass at the loop head that lets the turn go on. */
  predicate Follows(cfg: Config, s: Turn, reply: Reply, s': Turn) {
    ValidReply(reply) && s.iteration < cfg.maxIterations && Step(cfg, s, reply) == Continue(s')
  }

  predicate Trace(cfg: Config, states: seq<Turn>, replies: seq<Reply>) {
    && |states| == |replies| + 1
    && forall i {:trigger replies[i]} :: 0 <= i < |replies| ==> Follows(cfg, states[i], replies[i], states[i + 1])
  }

  /** What one pass carries over from pass i to pass i + 1 holds at every loop head. */
  lemma {:induction false} Along<S(!new), R(!new)>(
      states: seq<S>, replies: seq<R>, follows: (S, R, S) -> bool, holds: (nat, S) -> bool, k: nat)
    requires |states| == |replies| + 1 && k < |states| && holds(0, states[0])
    requires forall i {:trigger replies[i]} :: 0 <= i < |replies| ==> follows(states[i], replies[i], states[i + 1])
    requires forall i: nat, s, r, s' :: holds(i, s) && follows(s, r, s') ==> holds(i + 1, s')
    ensures holds(k, states[k])
  {
    if k > 0 {
      Along(states, replies, follows, holds, k - 1);
      assert follows(states[k - 1], replies[k - 1], states[k]);
    }
  }

  /** At every loop head of every turn, the resendable items pair every call with its one output. */
  lemma EveryLoopHeadIsPaired(cfg: Config, states: seq<Turn>, replies: seq<Reply>, k: nat)
    requires Trace(cfg, states, replies) && Inv(cfg, states[0]) && k < |states|
    ensures Inv(cfg, states[k]) && Paired(Resent(cfg, states[k]))
  {
    var holds := (i: nat, s: Turn) => Inv(cfg, s);
    var follows := (s: Turn, reply: Reply, s': Turn) => Follows(cfg, s, reply, s');
    forall i: nat, s, reply, s' | holds(i, s) && follows(s, reply, s') ensures holds(i + 1, s') {
      StepKeeps(cfg, s, reply);
    }
    Along(states, replies, follows, holds, k);
  }

  // ----- how many requests a turn issues -----

  function Spent(s: Turn): nat { s.iteration + s.transientRetries }

  /** A pass costs one iteration or one transient retry, never both and never neither. */
  lemma StepSpendsOne(cfg: Config, s: Turn, reply: Reply)
    requires ValidReply(reply) && Step(cfg, s, reply).Continue?
    ensures var s' := Step(cfg, s, reply).turn;
            if reply.Failure? && RetriesUnchanged(cfg, s, reply)
            then s'.iteration == s.iteration && s'.transientRetries == s.transientRetries + 1
            else s'.iteration == s.iteration + 1 && s'.transientRetries == s.transientRetries
  {
    match reply
    case Interrupted =>
    case Failure(_, _, _, _, _) =>
    case Received(r) =>
      var s1 := Receive(cfg, s, r);
      if Compacts(s1, r) {
        CompactSpends(cfg, s1, r);
      } else {
        DispatchSpends(cfg, s1, r);
      }
  }

  predicate SpendsIteration(s: Turn, o: Outcome) {
    o.Continue? ==> o.turn.iteration == s.iteration + 1 && o.turn.transientRetries == s.transientRetries
  }

  lemma DispatchSpends(cfg: Config, s: Turn, r: Response)
    requires ValidResponse(r)
    ensures SpendsIteration(s, Dispatch(cfg, s, r))
  {
    if HasSearch(CallsIn(r.output)) {
      DiscoverSpends(cfg, s, r);
    } else {
      AnswerSpends(cfg, Noted(s, r), r);
      RunToolsSpends(cfg, Noted(s, r), r);
      NotedSpends(s, Noted(s, r), r);
    }
  }

  lemma NotedSpends(s: Turn, s1: Turn, r: Response)
    requires s1 == Noted(s, r)
    ensures s1.iteration == s.iteration && s1.transientRetries == s.transientRetries
  {
  }

  lemma DiscoverSpends(cfg: Config, s: Turn, r: Response)
    requires ValidResponse(r)
    ensures SpendsIteration(s, Discover(cfg, s, r))
  {
  }

  lemma RunToolsSpends(cfg: Config, s: Turn, r: Response)
    requires ValidResponse(r)
    ensures SpendsIteration(s, RunTools(cfg, s, r))
  {
  }

  lemma AnswerSpends(cfg: Config, s: Turn, r: Response)
    ensures SpendsIteration(s, Answer(cfg, s, r))
  {
  }

  lemma CompactSpends(cfg: Config, s: Turn, r: Response)
    requires ValidResponse(r)
    ensures SpendsIteration(s, Compact(cfg, s, r))
  {
    var s1 := s.(compacted := true);
    DispatchSpends(cfg, s1, r);
    if r.compaction.Compacted? {
      DispatchSpends(cfg, s1.(previousId := None, pending := Rebuild(cfg, s, r).0), r);
    }
  }

  predicate WithinBudgets(cfg: Config, s: Turn) {
    s.iteration <= cfg.maxIterations && s.transientRetries <= cfg.maxTransientRetries
  }

  predicate OnBudget(cfg: Config, passes: nat, s: Turn) { Spent(s) == passes && WithinBudgets(cfg, s) }

  lemma PassSpendsOne(cfg: Config, s: Turn, reply: Reply, s': Turn)
    requires Follows(cfg, s, reply, s')
    ensures Spent(s') == Spent(s) + 1 && (WithinBudgets(cfg, s) ==> WithinBudgets(cfg, s'))
  {
    StepSpendsOne(cfg, s, reply);
  }

  /** Every pass before loop head k was paid for, and no budget is overdrawn. */
  lemma SpentCountsPasses(cfg: Config, states: seq<Turn>, replies: seq<Reply>, k: nat)
    requires Trace(cfg, states, replies) && k < |states|
    requires Spent(states[0]) == 0
    ensures Spent(states[k]) == k && WithinBudgets(cfg, states[k])
  {
    var holds := (i: nat, s: Turn) => OnBudget(cfg, i, s);
    var follows := (s: Turn, reply: Reply, s': Turn) => Follows(cfg, s, reply, s');
    forall i: nat, s, reply, s' | holds(i, s) && follows(s, reply, s') ensures holds(i + 1, s') {
      PassSpendsOne(cfg, s, reply, s');
    }
    assert OnBudget(cfg, 0, states[0]);
    Along(states, replies, follows, holds, k);
  }

  /**
   * However the provider answers, the turn gets past at most maxIterations + maxTransientRetries requests, and
   * one fewer while another request can still follow.
   */
  lemma RequestsAreBounded(cfg: Config, states: seq<Turn>, replies: seq<Reply>)
    requires Trace(cfg, states, replies)
    requires Spent(states[0]) == 0
    ensures |replies| <= cfg.maxIterations + cfg.maxTransientRetries
    ensures states[|replies|].iteration < cfg.maxIterations ==>
              |replies| < cfg.maxIterations + cfg.maxTransientRetries
  {
    SpentCountsPasses(cfg, states, replies, |replies|);
  }

  // ----- identical requests -----

  /** A failed request is sent again as it was exactly when nothing useful had arrived and retries are left. */
  lemma IdenticalRetryIff(cfg: Config, s: Turn, f: Reply)
    requires f.Failure? && ValidReply(f)
    ensures Step(cfg, s, f).Continue? && RequestOf(Step(cfg, s, f).turn) == RequestOf(s)
            <==> f.transient && !f.deltas && s.transientRetries < cfg.maxTransientRetries
  {
  }

  // ----- the loop -----

  /** The pass ends the turn, for one of the reasons there are for this ending. */
  predicate Ends(cfg: Config, s: Turn, reply: Reply, ending: Ending) {
    && ValidReply(reply) && s.iteration < cfg.maxIterations && Step(cfg, s, reply) == Stop(ending)
    && EndsAs(cfg, s, reply, ending)
  }

  /** The body of the loop. */
  method Pass(cfg: Config, s: Turn, reply: Reply) returns (outcome: Outcome)
    requires ValidReply(reply) && s.iteration < cfg.maxIterations
    ensures outcome.Continue? ==> Follows(cfg, s, reply, outcome.turn)
    ensures outcome.Stop? ==> Ends(cfg, s, reply, outcome.ending) && outcome.ending != IterationBudget
  {
    outcome := Step(cfg, s, reply);
    if outcome.Stop? { EndingIff(cfg, s, reply, outcome.ending); }
  }

  /** The trace so far, and one request per pass taken at its loop head. */
  predicate Recorded(cfg: Config, opening: Turn, states: seq<Turn>, replies: seq<Reply>, requests: seq<Request>) {
    && Trace(cfg, states, replies) && states[0] == opening
    && |requests| == |replies|
    && forall i :: 0 <= i < |requests| ==> requests[i] == RequestOf(states[i])
  }

  /** The last state reached, the request sent from it if any, and how it ended. */
  predicate Finished(cfg: Config, last: Turn, replies: seq<Reply>, passes: nat, requests: seq<Request>,
      ending: Option<Ending>) {
    match ending
    case None => |requests| == passes == |replies| && last.iteration < cfg.maxIterations
    case Some(e) =>
      if e == IterationBudget then |requests| == passes && last.iteration >= cfg.maxIterations
      else
        && passes < |replies| && passes < |requests|
        && requests[passes..] == [RequestOf(last)] && Ends(cfg, last, replies[passes], e)
  }

  /**
   * The turn's loop over whatever the provider answers. It sends one request per pass, each as the state at the
   * loop head says, and stops within the request bound.
   */
  method RunNativeAgentLoop(cfg: Config, opening: Turn, replies: seq<Reply>)
      returns (requests: seq<Request>, ending: Option<Ending>, passes: nat, ghost states: seq<Turn>)
    requires Spent(opening) == 0
    requires forall i :: 0 <= i < |replies| ==> ValidReply(replies[i])
    ensures |requests| <= cfg.maxIterations + cfg.maxTransientRetries
    ensures ending.None? ==> |replies| < cfg.maxIterations + cfg.maxTransientRetries
    ensures passes <= |replies| && passes <= |requests|
    ensures Recorded(cfg, opening, states, replies[..passes], requests[..passes])
    ensures Finished(cfg, states[passes], replies, passes, requests, ending)
    ensures ending == Some(IterationBudget) <==> states[passes].iteration >= cfg.maxIterations
    ensures ending.Some? && ending.value != IterationBudget ==>
              passes < |replies| && EndsAs(cfg, states[passes], replies[passes], ending.value)
    ensures ending.None? ==> passes == |replies|
  {
    var s := opening;
    requests, ending, states, passes := [], None, [opening], 0;
    while s.iteration < cfg.maxIterations && passes < |replies|
      invariant passes == |requests| <= |replies|
      invariant Recorded(cfg, opening, states, replies[..passes], requests) && states[passes] == s
      decreases |replies| - passes
    {
      RequestsAreBounded(cfg, states, replies[..passes]);
      var reply := replies[passes];
      var outcome := Pass(cfg, s, reply);
      if outcome.Stop? {
        ending := Some(outcome.ending);
        StoppedHere(cfg, s, replies, passes, requests, outcome.ending);
        requests := requests + [RequestOf(s)];
        return;
      }
      assert replies[..passes] + [reply] == replies[..passes + 1];
      RecordedSnoc(cfg, opening, states, replies[..passes], requests, reply, outcome.turn);
      requests, states := requests + [RequestOf(s)], states + [outcome.turn];
      s, passes := outcome.turn, passes + 1;
    }
    RequestsAreBounded(cfg, states, replies[..passes]);
    assert requests[..passes] == requests;
    if s.iteration >= cfg.maxIterations {
      ending := Some(IterationBudget);
    }
  }

  lemma RecordedSnoc(cfg: Config, opening: Turn, states: seq<Turn>, replies: seq<Reply>, requests: seq<Request>,
      reply: Reply, next: Turn)
    requires Recorded(cfg, opening, states, replies, requests) && Follows(cfg, states[|replies|], reply, next)
    ensures Recorded(cfg, opening, states + [next], replies + [reply], requests + [RequestOf(states[|replies|])])
  {
    var longer, more := states + [next], replies + [reply];
    forall i {:trigger more[i]} | 0 <= i < |more| ensures Follows(cfg, longer[i], more[i], longer[i + 1]) {
      if i < |replies| { assert Follows(cfg, states[i], replies[i], states[i + 1]); }
    }
  }

  lemma StoppedHere(cfg: Config, s: Turn, replies: seq<Reply>, passes: nat, sent: seq<Request>, ending: Ending)
    requires passes < |replies| && |sent| == passes && Ends(cfg, s, replies[passes], ending)
    requires ending != IterationBudget
    ensures var requests := sent + [RequestOf(s)];
            requests[..passes] == sent && Finished(cfg, s, replies, passes, requests, Some(ending))
    ensures EndsAs(cfg, s, replies[passes], ending) && s.iteration < cfg.maxIterations
  {
    assert (sent + [RequestOf(s)])[passes..] == [RequestOf(s)];
  }

  /** Every request of a stateless turn, the last one included, is paired as it stands. */
  lemma EveryStatelessRequestIsPaired(cfg: Config, opening: Turn, states: seq<Turn>, replies: seq<Reply>,
                                      requests: seq<Request>, k: nat)
    requires Recorded(cfg, opening, states, replies, requests) && Inv(cfg, opening) && !cfg.server
    requires k <= |requests|
    ensures Paired(if k < |requests| then requests[k].items else RequestOf(states[k]).items)
  {
    EveryLoopHeadIsPaired(cfg, states, replies, k);
  }
}
