/** What each event makes of a subagent worker, and what the answers of the pool say about their evidence. */
module SubagentOutcomes {
  import opened Options
  import opened ReadSubagents

  /** The worker has a task of the pool. */
  predicate On(p: Pool, w: nat) { w < |p.workers| && Busy(p.workers[w]) && p.workers[w].i < |p.tasks| }

  /** The worker is on its way back with an answer to its task. */
  predicate Brings(p: Pool, w: nat, i: nat, status: Status, evidence: nat) {
    w < |p.workers| && i < |p.tasks| && p.workers[w] == Returning(i, Result(p.tasks[i], status, evidence))
  }

  /** A call the model may still make, for a worker that has iterations left. */
  predicate MayAsk(l: Limits, p: Pool, n: nat, aborted: bool) {
    n < l.maxWorkerIterations && !aborted && p.modelCalls < l.maxTotalModelCalls
  }

  lemma AskGives(l: Limits, p: Pool, w: nat, aborted: bool)
    requires On(p, w) && p.workers[w].Head?
    ensures var k, q := p.workers[w], Step(l, p, Ask(w, aborted));
            && (q.workers[w] == Thinking(k.i, k.n, k.e, k.gap) && q.modelCalls == p.modelCalls + 1
                <==> MayAsk(l, p, k.n, aborted))
            && (Brings(q, w, k.i, Partial, k.e) && q.modelCalls == p.modelCalls
                <==> !MayAsk(l, p, k.n, aborted) && k.e > 0)
            && (Brings(q, w, k.i, Failed, 0) && q.modelCalls == p.modelCalls
                <==> !MayAsk(l, p, k.n, aborted) && k.e == 0)
  {
  }

  predicate Fits(l: Limits, p: Pool, response: Response) {
    response.Calls? && p.toolLeaves + response.count <= l.maxToolLeaves
  }

  /** A response that can be no good answer, and leads to no calls. */
  predicate EndsBadly(l: Limits, p: Pool, response: Response) {
    response in {Unusable, BadEnvelope, Text(true)} || (response.Calls? && !Fits(l, p, response))
  }

  /** A task is completed by a text with evidence and no gaps behind it; with evidence anything less is partial. */
  lemma AnswerGives(l: Limits, p: Pool, w: nat, response: Response)
    requires On(p, w) && p.workers[w].Thinking?
    ensures var k, q := p.workers[w], Step(l, p, Answer(w, response));
            && (Brings(q, w, k.i, Completed, k.e) <==> response == Text(false) && k.e > 0 && !k.gap)
            && (Brings(q, w, k.i, Partial, k.e)
                <==> k.e > 0 && (EndsBadly(l, p, response) || (response == Text(false) && k.gap)))
            && (Brings(q, w, k.i, Failed, 0) <==> k.e == 0 && (EndsBadly(l, p, response) || response == Text(false)))
            && (q.workers[w] == Head(k.i, k.n + 1, k.e, true) <==> Fits(l, p, response) && response.rejected)
            && (q.workers[w].Reading? <==> Fits(l, p, response) && !response.rejected)
            && (q.workers[w].Reading? ==> q.workers[w] == Reading(k.i, k.n, k.e, k.gap, response.count))
            && q.toolLeaves == p.toolLeaves + if q.workers[w].Reading? then response.count else 0
  {
  }

  /** Every call that was dispatched is evidence; one without use is a gap. */
  lemma ReadGives(l: Limits, p: Pool, w: nat, unusable: bool)
    requires On(p, w) && p.workers[w].Reading?
    ensures var k, q := p.workers[w], Step(l, p, Read(w, unusable));
            && q.workers[w].Head? && q.workers[w].i == k.i && q.workers[w].n == k.n + 1
            && q.workers[w].e == k.e + k.calls
            && (q.workers[w].gap <==> k.gap || unusable)
  {
  }

  /** Tasks are taken in order; one whose batch was aborted, or whose tools are not to be had, fails at once. */
  lemma TakeGives(l: Limits, p: Pool, w: nat, aborted: bool, toolsMissing: bool)
    requires w < |p.workers| && p.workers[w].Ready?
    ensures var i, q := p.nextTask, Step(l, p, Take(w, aborted, toolsMissing));
            && (q.workers[w].Finished? <==> |p.tasks| <= i)
            && (Brings(q, w, i, Failed, 0) <==> i < |p.tasks| && (aborted || toolsMissing))
            && (q.workers[w] == Head(i, 0, 0, false) <==> i < |p.tasks| && !aborted && !toolsMissing)
            && q.nextTask == i + 1
  {
  }

  /** A worker that breaks down fails its task, whatever it had. */
  lemma CrashGives(l: Limits, p: Pool, w: nat)
    requires On(p, w) && !p.workers[w].Returning?
    ensures Brings(Step(l, p, Crash(w)), w, p.workers[w].i, Failed, 0)
  {
  }

  lemma SettleGives(l: Limits, p: Pool, w: nat)
    requires On(p, w) && p.workers[w].Returning? && |p.results| == |p.tasks|
    ensures var k, q := p.workers[w], Step(l, p, Settle(w));
            q.workers[w].Ready? && q.results == p.results[k.i := Some(k.result)]
  {
  }

  /** The root turn's own reads come out of the same budget, or are not made. */
  lemma RootGives(l: Limits, p: Pool, leaves: nat)
    ensures var q := Step(l, p, RootReserve(leaves));
            && (p.toolLeaves + leaves <= l.maxToolLeaves ==> q == p.(toolLeaves := p.toolLeaves + leaves))
            && (p.toolLeaves + leaves > l.maxToolLeaves ==> q == p)
  {
  }

  /** An event of one worker, or of the root turn, leaves the other workers where they were. */
  lemma OthersStay(l: Limits, p: Pool, event: Event, v: nat)
    requires v < |p.workers| && (event.RootReserve? || event.w != v)
    ensures Step(l, p, event).workers[v] == p.workers[v]
  {
  }

  // ----- what an answer says about its evidence -----

  /** Failed means that there is no evidence, and nothing else does. */
  predicate Honest(r: Result) { r.status == Failed <==> r.evidence == 0 }

  predicate AllHonest(p: Pool) {
    && (forall i :: 0 <= i < |p.results| && p.results[i].Some? ==> Honest(p.results[i].value))
    && (forall w :: 0 <= w < |p.workers| && p.workers[w].Returning? ==> Honest(p.workers[w].result))
  }

  lemma StepHonest(l: Limits, p: Pool, event: Event)
    requires AllHonest(p)
    ensures AllHonest(Step(l, p, event))
  {
    var q := Step(l, p, event);
    forall w | 0 <= w < |q.workers| && q.workers[w].Returning? ensures Honest(q.workers[w].result) {
      if w < |p.workers| && (event.RootReserve? || event.w != w) { OthersStay(l, p, event, w); }
    }
  }

  /** In every schedule an answer without evidence is a failure, and an answer with evidence is none. */
  lemma {:induction false} EveryAnswerIsHonest(l: Limits, b: Batch, schedule: seq<Event>)
    ensures AllHonest(Run(l, Start(l, b), schedule))
  {
    if schedule != [] {
      EveryAnswerIsHonest(l, b, schedule[..|schedule| - 1]);
      StepHonest(l, Run(l, Start(l, b), schedule[..|schedule| - 1]), schedule[|schedule| - 1]);
    }
  }
}
