/** The two response-state modes compared: the server mode's recovery list against the stateless item list. */
module TurnModes {
  import opened Options
  import opened TurnItems
  import opened TurnLoop
  import opened TurnMemory
  import opened TurnRuns
  import opened TurnState

  function InServerMode(cfg: Config): Config { cfg.(server := true) }

  /** Equal but for what only one of the modes uses. */
  predicate SameProgress(local: Turn, server: Turn) {
    server == local.(pending := server.pending, previousId := server.previousId, recovery := server.recovery,
                     emptyRetries := server.emptyRetries)
  }

  /** The server-mode turn could restart cold with exactly what the stateless turn would send. */
  predicate Twins(local: Turn, server: Turn) {
    SameProgress(local, server) && local.previousId == None && server.recovery == local.pending
  }

  // ----- what does not depend on the mode -----

  lemma {:induction false} SameContinuation(cfg: Config, output: seq<Item>)
    ensures Continuation(InServerMode(cfg), output) == Continuation(cfg, output)
  {
    if output != [] {
      SameContinuation(cfg, output[..|output| - 1]);
    }
  }

  lemma {:induction false} SameReplayable(cfg: Config, exchanges: seq<Exchange>)
    ensures Replayable(InServerMode(cfg), exchanges) == Replayable(cfg, exchanges)
  {
    if exchanges != [] {
      SameReplayable(cfg, exchanges[..|exchanges| - 1]);
    }
  }

  lemma SameRebuild(cfg: Config, local: Turn, server: Turn, r: Response)
    requires ValidResponse(r) && r.compaction.Compacted? && SameProgress(local, server)
    ensures Rebuild(InServerMode(cfg), server, r) == Rebuild(cfg, local, r)
  {
    SameReplayable(cfg, local.exchanges);
  }

  // ----- when the lists part -----

  /** A text answer that is met with a completion nudge. */
  predicate Nudged(s: Turn, r: Response) {
    CallsIn(r.output) == [] && (r.finalText.Some? || (!s.programInFlight && r.convenienceText != ""))
  }

  /** Loose text beside a program in flight: only the stateless mode puts it in its list. */
  predicate TalksOverProgram(s: Turn, r: Response) {
    CallsIn(r.output) == [] && r.finalText.None? && s.programInFlight && r.convenienceText != ""
  }

  /** A dispatch adds the same to both lists exactly when it neither nudges after some output nor talks over. */
  predicate SameDispatch(cfg: Config, s: Turn, r: Response) {
    (Nudged(s, r) ==> Continuation(cfg, r.output) == []) && !TalksOverProgram(s, r)
  }

  lemma AnswersAgree(cfg: Config, local: Turn, server: Turn, base: seq<Item>, r: Response)
    requires ValidResponse(r) && CallsIn(r.output) == [] && SameProgress(local, server) && !cfg.server
    requires server.recovery == base + Continuation(cfg, r.output)
    requires Answer(cfg, local, r).Continue? && Answer(InServerMode(cfg), server, r).Continue?
    ensures var l, s := Answer(cfg, local, r).turn, Answer(InServerMode(cfg), server, r).turn;
            SameProgress(l, s)
            && (local.pending == base ==> (s.recovery == l.pending <==> SameDispatch(cfg, local, r)))
  {
    if Nudged(local, r) {
      var local1 := if r.finalText.Some? then local.(programInFlight := false) else local;
      var server1 := if r.finalText.Some? then server.(programInFlight := false) else server;
      NudgesAgree(cfg, local1, server1, base, r);
    } else {
      WaitsAgree(cfg, local, server, base, r);
    }
  }

  lemma NudgesAgree(cfg: Config, local: Turn, server: Turn, base: seq<Item>, r: Response)
    requires SameProgress(local, server) && !cfg.server && server.recovery == base + Continuation(cfg, r.output)
    requires Conclude(cfg, local, r).Continue? && Conclude(InServerMode(cfg), server, r).Continue?
    ensures var l, s := Conclude(cfg, local, r).turn, Conclude(InServerMode(cfg), server, r).turn;
            SameProgress(l, s)
            && (local.pending == base ==> (s.recovery == l.pending <==> Continuation(cfg, r.output) == []))
  {
    SameContinuation(cfg, r.output);
    var l, s := Conclude(cfg, local, r).turn, Conclude(InServerMode(cfg), server, r).turn;
    var c := Continuation(cfg, r.output);
    assert |s.recovery| == |base| + 2 * |c| + 1 && |l.pending| == |local.pending| + |c| + 1;
  }

  lemma WaitsAgree(cfg: Config, local: Turn, server: Turn, base: seq<Item>, r: Response)
    requires SameProgress(local, server) && !cfg.server && server.recovery == base + Continuation(cfg, r.output)
    requires WaitForText(cfg, local, r).Continue? && WaitForText(InServerMode(cfg), server, r).Continue?
    ensures var l, s := WaitForText(cfg, local, r).turn, WaitForText(InServerMode(cfg), server, r).turn;
            SameProgress(l, s)
            && (local.pending == base ==>
                  (s.recovery == l.pending <==> !(local.programInFlight && r.convenienceText != "")))
  {
  }

  lemma DispatchesAgree(cfg: Config, local: Turn, server: Turn, base: seq<Item>, r: Response)
    requires ValidResponse(r) && SameProgress(local, server) && !cfg.server
    requires server.recovery == base + Continuation(cfg, r.output)
    requires Dispatch(cfg, local, r).Continue? && Dispatch(InServerMode(cfg), server, r).Continue?
    ensures var l, s := Dispatch(cfg, local, r).turn, Dispatch(InServerMode(cfg), server, r).turn;
            SameProgress(l, s)
            && (local.pending == base ==> (s.recovery == l.pending <==> SameDispatch(cfg, local, r)))
            && (CallsIn(r.output) != [] && s.recovery == l.pending ==> local.pending == base)
  {
    SameContinuation(cfg, r.output);
    var calls := CallsIn(r.output);
    if HasSearch(calls) {
      DiscoveriesAgree(cfg, local, server, base, r);
    } else {
      var local1 := Noted(local, r);
      var server1 := Noted(server, r);
      CountsAgree(local, server, r);
      if calls == [] {
        AnswersAgree(cfg, local1, server1, base, r);
      } else {
        ToolsAgree(cfg, local1, server1, base, r);
      }
    }
  }

  lemma CountsAgree(local: Turn, server: Turn, r: Response)
    requires SameProgress(local, server)
    ensures var l, s := Noted(local, r), Noted(server, r);
            SameProgress(l, s) && l.pending == local.pending && s.recovery == server.recovery
            && l.programInFlight == local.programInFlight
  {
  }

  lemma DiscoveriesAgree(cfg: Config, local: Turn, server: Turn, base: seq<Item>, r: Response)
    requires ValidResponse(r) && SameProgress(local, server) && !cfg.server
    requires server.recovery == base + Continuation(cfg, r.output)
    requires Discover(cfg, local, r).Continue? && Discover(InServerMode(cfg), server, r).Continue?
    ensures var l, s := Discover(cfg, local, r).turn, Discover(InServerMode(cfg), server, r).turn;
            SameProgress(l, s) && (s.recovery == l.pending <==> local.pending == base)
  {
    SameContinuation(cfg, r.output);
    SameTail(base, local.pending, Continuation(cfg, r.output), OutputItems(CallsIn(r.output), r.results), []);
  }

  lemma ToolsAgree(cfg: Config, local: Turn, server: Turn, base: seq<Item>, r: Response)
    requires ValidResponse(r) && SameProgress(local, server) && !cfg.server
    requires server.recovery == base + Continuation(cfg, r.output)
    requires RunTools(cfg, local, r).Continue? && RunTools(InServerMode(cfg), server, r).Continue?
    ensures var l, s := RunTools(cfg, local, r).turn, RunTools(InServerMode(cfg), server, r).turn;
            SameProgress(l, s) && (s.recovery == l.pending <==> local.pending == base)
  {
    SameContinuation(cfg, r.output);
    var nudge := if local.sameTool >= cfg.maxSameTool then [ANTI_LOOP] else [];
    SameTail(base, local.pending, Continuation(cfg, r.output), OutputItems(CallsIn(r.output), r.results), nudge);
  }

  /** Lists that get the same tail are equal exactly when they were. */
  lemma SameTail(a: seq<Item>, b: seq<Item>, c: seq<Item>, d: seq<Item>, e: seq<Item>)
    ensures (a + c + d + e == b + (c + d) + e) <==> a == b
    ensures (a + c + d == b + (c + d)) <==> a == b
  {
    var tail := c + d + e;
    assert a + c + d + e == a + tail && b + (c + d) + e == b + tail;
    assert a + c + d == a + (c + d);
    SamePrefix(a, b, tail);
    SamePrefix(a, b, c + d);
  }

  lemma SamePrefix(a: seq<Item>, b: seq<Item>, tail: seq<Item>)
    ensures a + tail == b + tail <==> a == b
  {
    if a + tail == b + tail {
      assert |a| == |b|;
      assert a == (a + tail)[..|a|] && b == (b + tail)[..|b|];
    }
  }

  /** What keeps the two lists equal over one response. */
  predicate SameRound(cfg: Config, before: Turn, r: Response)
    requires ValidResponse(r)
  {
    var s := Receive(cfg, before, r);
    if Compacts(s, r) then FailsLate(cfg, s, r) ==> r.compaction.context == before.pending
    else SameDispatch(cfg, s, r)
  }

  /**
   * Over the same response, the server mode's recovery list stays what the stateless mode would send, exactly
   * when the response is not nudged after some output, does not talk over a program and compacting does not
   * fail late.
   */
  lemma ResponsesAgreeIff(cfg: Config, local: Turn, server: Turn, r: Response)
    requires ValidResponse(r) && !cfg.server && Twins(local, server)
    requires OnResponse(cfg, local, r).Continue? && OnResponse(InServerMode(cfg), server, r).Continue?
    ensures var l, s := OnResponse(cfg, local, r).turn, OnResponse(InServerMode(cfg), server, r).turn;
            SameProgress(l, s) && (s.recovery == l.pending <==> SameRound(cfg, local, r))
  {
    SameContinuation(cfg, r.output);
    var local1, server1 := Receive(cfg, local, r), Receive(InServerMode(cfg), server, r);
    assert SameProgress(local1, server1);
    if Compacts(local1, r) {
      CompactionsAgree(cfg, local1, server1, local.pending, r);
    } else {
      DispatchesAgree(cfg, local1, server1, local.pending, r);
    }
  }

  lemma CompactionsAgree(cfg: Config, local: Turn, server: Turn, base: seq<Item>, r: Response)
    requires ValidResponse(r) && SameProgress(local, server) && !cfg.server
    requires Compacts(local, r) && local.pending == base && server.recovery == base + Continuation(cfg, r.output)
    requires Compact(cfg, local, r).Continue? && Compact(InServerMode(cfg), server, r).Continue?
    ensures var l, s := Compact(cfg, local, r).turn, Compact(InServerMode(cfg), server, r).turn;
            SameProgress(l, s)
            && (s.recovery == l.pending <==> (FailsLate(cfg, local, r) ==> r.compaction.context == base))
  {
    var local1, server1 := local.(compacted := true), server.(compacted := true);
    assert SameProgress(local1, server1);
    if r.compaction.CompactionFailed? {
      DispatchesAgree(cfg, local1, server1, base, r);
    } else {
      SameRebuild(cfg, local, server, r);
      var (items, done) := Rebuild(cfg, local, r);
      if !done {
        var local2 := local1.(previousId := None, pending := items);
        var server2 := server1.(previousId := None, pending := items);
        assert SameProgress(local2, server2);
        DispatchesAgree(cfg, local2, server2, base, r);
      }
    }
  }

  // ----- whole turns -----

  predicate StaySame(cfg: Config, s: Turn, reply: Reply)
    requires ValidReply(reply)
  {
    reply.Received? ==> SameRound(cfg, s, reply.response)
  }

  /** A stateless turn survives a failed request only by sending it again. */
  lemma StepsAgree(cfg: Config, local: Turn, server: Turn, reply: Reply)
    requires ValidReply(reply) && !cfg.server && Inv(cfg, local) && Twins(local, server)
    requires Step(cfg, local, reply).Continue? && Step(InServerMode(cfg), server, reply).Continue?
    requires StaySame(cfg, local, reply)
    ensures Twins(Step(cfg, local, reply).turn, Step(InServerMode(cfg), server, reply).turn)
  {
    StepKeeps(cfg, local, reply);
    if reply.Received? {
      ResponsesAgreeIff(cfg, local, server, reply.response);
    }
  }

  /**
   * Two turns in the two modes that get the same replies: at every loop head the server mode can restart cold
   * with exactly the stateless list, as long as no round parts them.
   */
  lemma {:induction false} ServerCanAlwaysRestart(cfg: Config, local: seq<Turn>, server: seq<Turn>,
      replies: seq<Reply>, k: nat)
    requires !cfg.server && Trace(cfg, local, replies) && Trace(InServerMode(cfg), server, replies)
    requires Inv(cfg, local[0]) && Twins(local[0], server[0]) && k < |local|
    requires forall i :: 0 <= i < k ==> ValidReply(replies[i]) && StaySame(cfg, local[i], replies[i])
    ensures Resent(InServerMode(cfg), server[k]) == Resent(cfg, local[k]) && Twins(local[k], server[k])
  {
    if k > 0 {
      ServerCanAlwaysRestart(cfg, local, server, replies, k - 1);
      EveryLoopHeadIsPaired(cfg, local, replies, k - 1);
      assert Follows(cfg, local[k - 1], replies[k - 1], local[k]);
      assert Follows(InServerMode(cfg), server[k - 1], replies[k - 1], server[k]);
      StepsAgree(cfg, local[k - 1], server[k - 1], replies[k - 1]);
    }
  }

  // ----- the provider's copy -----

  /** The next server-mode request reaches the whole turn: by the provider's chain or by sending everything. */
  predicate Anchored(s: Turn) { Truthy(s.previousId) || s.pending == s.recovery }

  /** A nudge is the one branch that does not ask for a response id. */
  lemma AnchorLostIff(cfg: Config, s: Turn, r: Response)
    requires ValidResponse(r) && cfg.server && OnResponse(cfg, s, r).Continue?
    ensures !Anchored(OnResponse(cfg, s, r).turn)
            <==> Nudged(Receive(cfg, s, r), r) && !Truthy(r.id)
                 && (s.recovery != [] || Continuation(cfg, r.output) != [])
  {
    var s1 := Receive(cfg, s, r);
    if Compacts(s1, r) {
      AnchoredByCompacting(cfg, s1, r);
    } else {
      DispatchAnchors(cfg, s1, r);
    }
  }

  lemma DispatchAnchors(cfg: Config, s: Turn, r: Response)
    requires ValidResponse(r) && cfg.server && Dispatch(cfg, s, r).Continue?
    ensures !Anchored(Dispatch(cfg, s, r).turn)
            <==> Nudged(s, r) && !Truthy(r.id) && s.recovery + Continuation(cfg, r.output) != []
  {
    var calls := CallsIn(r.output);
    if !HasSearch(calls) {
      var s1 := Noted(s, r);
      if calls == [] {
        AnswerAnchors(cfg, s1, r);
      }
    }
  }

  lemma AnswerAnchors(cfg: Config, s: Turn, r: Response)
    requires cfg.server && CallsIn(r.output) == [] && Answer(cfg, s, r).Continue?
    ensures !Anchored(Answer(cfg, s, r).turn)
            <==> Nudged(s, r) && !Truthy(r.id) && s.recovery + Continuation(cfg, r.output) != []
  {
    var s' := Answer(cfg, s, r).turn;
    if Nudged(s, r) {
      assert |s'.recovery| == |s.recovery| + |Continuation(cfg, r.output)| + 1;
    }
  }

  lemma AnchoredByCompacting(cfg: Config, s: Turn, r: Response)
    requires ValidResponse(r) && cfg.server && Compacts(s, r) && Compact(cfg, s, r).Continue?
    ensures Anchored(Compact(cfg, s, r).turn) && CallsIn(r.output) != []
  {
    var s1 := s.(compacted := true);
    if r.compaction.CompactionFailed? {
      DispatchAnchors(cfg, s1, r);
    } else if !Rebuild(cfg, s, r).1 {
      DispatchAnchors(cfg, s1.(previousId := None, pending := Rebuild(cfg, s, r).0), r);
    }
  }

  // ----- the partings are real -----

  function Said(text: string): Response {
    Response(Some("resp"), CompletedStatus, [Note(Text, text)], Some(text), text, false, false, CompactionFailed,
             Refused, [], false, None, false, true, "go on")
  }

  /** Whatever final text a nudge answers, the recovery list takes in its response twice. */
  lemma NudgeRepeats(cfg: Config, s: Turn, r: Response)
    requires cfg.server && !cfg.clientSearch && ValidResponse(r) && CallsIn(r.output) == []
    requires !r.status.OtherStatus? && r.finalText.Some? && r.outcomesPending && s.nudges < MAX_COMPLETION_NUDGES
    requires (s.programInFlight || HasProgram(r.output)) ==> !r.shapeError
    ensures var said := Continuation(cfg, r.output);
            Step(cfg, s, Received(r)).Continue?
            && Step(cfg, s, Received(r)).turn.recovery == s.recovery + said + (said + [Note(Text, r.nudge)])
  {
    var s1 := Receive(cfg, s, r);
    assert Step(cfg, s, Received(r)) == Dispatch(cfg, s1, r);
    TextDispatched(cfg, s1, r);
    TextConcludes(cfg, Noted(s1, r), r);
  }

  lemma TextDispatched(cfg: Config, s: Turn, r: Response)
    requires ValidResponse(r) && !cfg.clientSearch && CallsIn(r.output) == []
    ensures Dispatch(cfg, s, r) == Answer(cfg, Noted(s, r), r)
    ensures Noted(s, r).recovery == s.recovery && Noted(s, r).nudges == s.nudges
    ensures Noted(s, r).programInFlight == s.programInFlight
  {
  }

  lemma TextConcludes(cfg: Config, s: Turn, r: Response)
    requires cfg.server && r.finalText.Some? && r.outcomesPending && s.nudges < MAX_COMPLETION_NUDGES
    requires s.programInFlight ==> !r.shapeError
    ensures Answer(cfg, s, r).Continue?
    ensures Answer(cfg, s, r).turn.recovery == s.recovery + (Continuation(cfg, r.output) + [Note(Text, r.nudge)])
  {
    var said, nudge := Continuation(cfg, r.output), [Note(Text, r.nudge)];
    assert s.recovery + said + nudge == s.recovery + (said + nudge);
  }

  /** A turn whose recovery list holds the assistant's message twice. */
  lemma NudgeRepeatsTheAnswer(s: Turn)
    requires s == Opening(InServerMode(STATELESS), [Note(Text, "goal")], [Note(Text, "goal")], None, "goal")
    ensures var o := Step(InServerMode(STATELESS), s, Received(Said("half")));
            o.Continue?
            && o.turn.recovery == [Note(Text, "goal"), Note(Text, "half"), Note(Text, "half"), Note(Text, "go on")]
  {
    var r := Said("half");
    SaidReads("half");
    NudgeRepeats(InServerMode(STATELESS), s, r);
    var goal, said, nudge := [Note(Text, "goal")], [Note(Text, "half")], [Note(Text, "go on")];
    assert goal + said + (said + nudge) == goal + said + said + nudge;
  }

  lemma SaidReads(text: string)
    ensures var output := Said(text).output;
            CallsIn(output) == [] && Continuation(InServerMode(STATELESS), output) == output
  {
    var output := Said(text).output;
    assert CallsIn(output[..0]) == [] && Continuation(InServerMode(STATELESS), output[..0]) == [];
  }
}
