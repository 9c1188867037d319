/**
 * A batch of tool calls, each in the two steps between which others can come: the memo is asked and the call sent to
 * its executor, and later its result is stored. The memo of one turn at a time is in SideEffects.
 */
module SideEffectSteps {
  import opened Json
  import opened Options
  import opened SideEffects

  /** Where a call stands: sent to its executor, answered by it, or answered from the memo. */
  datatype Phase = Waiting | Running | Ran(result: Json) | Reused(result: Json)

  datatype Event = Start(i: nat) | Settle(i: nat)

  datatype Batch = Batch(completed: map<ExecutionKey, Json>, phases: seq<Phase>)

  /** One atomic stretch of a call; an event that does not fit where its call stands changes nothing. */
  function Step(entries: seq<Entry>, b: Batch, event: Event): (r: Batch)
    requires |b.phases| == |entries|
    ensures |r.phases| == |entries|
  {
    var i := event.i;
    if i >= |entries| then b
    else if event.Start? && b.phases[i].Waiting? then
      if entries[i].key.Some? && entries[i].key.value in b.completed
      then b.(phases := b.phases[i := Reused(b.completed[entries[i].key.value])])
      else b.(phases := b.phases[i := Running])
    else if event.Settle? && b.phases[i].Running? then
      Batch(if entries[i].key.Some? then b.completed[entries[i].key.value := entries[i].answer] else b.completed,
            b.phases[i := Ran(entries[i].answer)])
    else b
  }

  function Run(entries: seq<Entry>, memo: map<ExecutionKey, Json>, events: seq<Event>): (r: Batch)
    ensures |r.phases| == |entries|
  {
    if events == [] then Batch(memo, seq(|entries|, _ => Waiting))
    else
      var n := |events| - 1;
      Step(entries, Run(entries, memo, events[..n]), events[n])
  }

  lemma RunSnoc(entries: seq<Entry>, memo: map<ExecutionKey, Json>, events: seq<Event>, event: Event)
    ensures Run(entries, memo, events + [event]) == Step(entries, Run(entries, memo, events), event)
  {
    assert (events + [event])[..|events|] == events;
  }

  predicate Dispatched(p: Phase) { p.Running? || p.Ran? }

  /** A call whose effect is the given one has been answered by its executor. */
  predicate HasRun(entries: seq<Entry>, b: Batch, key: ExecutionKey)
    requires |b.phases| == |entries|
  {
    exists i :: 0 <= i < |entries| && b.phases[i].Ran? && entries[i].key == Some(key)
  }

  /** The memo knows what it knew at first and what has run, and nothing it knew at first was dispatched again. */
  ghost predicate Consistent(entries: seq<Entry>, memo: map<ExecutionKey, Json>, b: Batch) {
    && |b.phases| == |entries|
    && (forall k :: k in b.completed <==> k in memo || HasRun(entries, b, k))
    && (forall i :: 0 <= i < |entries| && Dispatched(b.phases[i]) && entries[i].key.Some? ==>
          entries[i].key.value !in memo)
  }

  lemma StepConsistent(entries: seq<Entry>, memo: map<ExecutionKey, Json>, b: Batch, event: Event)
    requires Consistent(entries, memo, b)
    ensures Consistent(entries, memo, Step(entries, b, event))
  {
    var b', i := Step(entries, b, event), event.i;
    forall k ensures k in b'.completed <==> k in memo || HasRun(entries, b', k) {
      if HasRun(entries, b, k) {
        var j :| 0 <= j < |entries| && b.phases[j].Ran? && entries[j].key == Some(k);
        assert b'.phases[j].Ran?;
      }
      if HasRun(entries, b', k) && !HasRun(entries, b, k) {
        var j :| 0 <= j < |entries| && b'.phases[j].Ran? && entries[j].key == Some(k);
        assert j == i;
      }
      if k in b'.completed && k !in b.completed {
        assert b'.phases[i].Ran? && entries[i].key == Some(k);
      }
    }
  }

  lemma {:induction false} RunConsistent(entries: seq<Entry>, memo: map<ExecutionKey, Json>, events: seq<Event>)
    ensures Consistent(entries, memo, Run(entries, memo, events))
  {
    if events != [] {
      var n := |events| - 1;
      RunConsistent(entries, memo, events[..n]);
      StepConsistent(entries, memo, Run(entries, memo, events[..n]), events[n]);
    }
  }

  // ----- the same effect twice -----

  predicate Twice(entries: seq<Entry>, b: Batch)
    requires |b.phases| == |entries|
  {
    exists i, j :: 0 <= i < j < |entries| && Dispatched(b.phases[i]) && Dispatched(b.phases[j])
                   && SameEffect(entries[i], entries[j])
  }

  /** A call starts while another with the same effect is still running. */
  predicate Overlaps(entries: seq<Entry>, b: Batch, event: Event)
    requires |b.phases| == |entries|
  {
    && event.Start? && event.i < |entries| && b.phases[event.i].Waiting?
    && exists j :: 0 <= j < |entries| && b.phases[j].Running? && SameEffect(entries[j], entries[event.i])
  }

  lemma TwiceBy(entries: seq<Entry>, b: Batch, i: nat, j: nat)
    requires |b.phases| == |entries| && i < |entries| && j < |entries| && i != j
    requires Dispatched(b.phases[i]) && Dispatched(b.phases[j]) && SameEffect(entries[i], entries[j])
    ensures Twice(entries, b)
  {
    assert SameEffect(entries[j], entries[i]);
  }

  /** Twice in a step: the step overlaps, or it had come to that before. */
  lemma StepTwiceIff(entries: seq<Entry>, memo: map<ExecutionKey, Json>, b: Batch, event: Event)
    requires Consistent(entries, memo, b)
    ensures Twice(entries, Step(entries, b, event)) <==> Twice(entries, b) || Overlaps(entries, b, event)
  {
    var b' := Step(entries, b, event);
    if Twice(entries, b) {
      TwiceStays(entries, b, event);
    } else if Overlaps(entries, b, event) {
      OverlapIsTwice(entries, memo, b, event.i);
    }
    if Twice(entries, b') { TwiceComes(entries, memo, b, event); }
  }

  lemma TwiceComes(entries: seq<Entry>, memo: map<ExecutionKey, Json>, b: Batch, event: Event)
    requires Consistent(entries, memo, b) && Twice(entries, Step(entries, b, event))
    ensures Twice(entries, b) || Overlaps(entries, b, event)
  {
    var b' := Step(entries, b, event);
    var i, j :| 0 <= i < j < |entries| && Dispatched(b'.phases[i]) && Dispatched(b'.phases[j])
                && SameEffect(entries[i], entries[j]);
    if Dispatched(b.phases[i]) && Dispatched(b.phases[j]) {
      TwiceBy(entries, b, i, j);
    } else if Dispatched(b.phases[i]) {
      NewTwin(entries, memo, b, event, j, i);
    } else {
      NewTwin(entries, memo, b, event, i, j);
    }
  }

  lemma TwiceStays(entries: seq<Entry>, b: Batch, event: Event)
    requires |b.phases| == |entries| && Twice(entries, b)
    ensures Twice(entries, Step(entries, b, event))
  {
    var i, j :| 0 <= i < j < |entries| && Dispatched(b.phases[i]) && Dispatched(b.phases[j])
                && SameEffect(entries[i], entries[j]);
    TwiceBy(entries, Step(entries, b, event), i, j);
  }

  /** A call that starts beside one already dispatched with its effect finds it running. */
  lemma NewTwin(entries: seq<Entry>, memo: map<ExecutionKey, Json>, b: Batch, event: Event, i: nat, j: nat)
    requires Consistent(entries, memo, b) && i < |entries| && j < |entries| && i != j
        && SameEffect(entries[i], entries[j])
    requires Dispatched(Step(entries, b, event).phases[i]) && !Dispatched(b.phases[i]) && Dispatched(b.phases[j])
    ensures Overlaps(entries, b, event)
  {
    RanAreKnown(entries, memo, b);
  }

  lemma RanAreKnown(entries: seq<Entry>, memo: map<ExecutionKey, Json>, b: Batch)
    requires Consistent(entries, memo, b)
    ensures forall i :: 0 <= i < |entries| && b.phases[i].Ran? && entries[i].key.Some? ==>
              entries[i].key.value in b.completed
  {
    forall i | 0 <= i < |entries| && b.phases[i].Ran? && entries[i].key.Some?
      ensures entries[i].key.value in b.completed
    {
      assert HasRun(entries, b, entries[i].key.value);
    }
  }

  lemma OverlapIsTwice(entries: seq<Entry>, memo: map<ExecutionKey, Json>, b: Batch, n: nat)
    requires Consistent(entries, memo, b) && Overlaps(entries, b, Start(n))
    ensures Twice(entries, Step(entries, b, Start(n)))
  {
    var b' := Step(entries, b, Start(n));
    var j :| 0 <= j < |entries| && b.phases[j].Running? && SameEffect(entries[j], entries[n]);
    var key := entries[n].key.value;
    if key in b.completed {
      var i :| 0 <= i < |entries| && b.phases[i].Ran? && entries[i].key == Some(key);
      TwiceBy(entries, b', i, j);
    } else {
      TwiceBy(entries, b', j, n);
    }
  }

  /** Some call of the schedule starts while another with the same effect is still running. */
  predicate SomeOverlap(entries: seq<Entry>, memo: map<ExecutionKey, Json>, events: seq<Event>) {
    exists k :: 0 <= k < |events| && OverlapsAt(entries, memo, events, k)
  }

  predicate OverlapsAt(entries: seq<Entry>, memo: map<ExecutionKey, Json>, events: seq<Event>, k: nat)
    requires k < |events|
  {
    Overlaps(entries, Run(entries, memo, events[..k]), events[k])
  }

  lemma OverlapSnoc(entries: seq<Entry>, memo: map<ExecutionKey, Json>, events: seq<Event>, event: Event)
    ensures SomeOverlap(entries, memo, events + [event])
       <==> SomeOverlap(entries, memo, events) || Overlaps(entries, Run(entries, memo, events), event)
  {
    var all, n := events + [event], |events|;
    assert all[..n] == events && all[n] == event;
    forall k | 0 <= k < n ensures OverlapsAt(entries, memo, all, k) == OverlapsAt(entries, memo, events, k) {
      assert all[..k] == events[..k];
    }
    if Overlaps(entries, Run(entries, memo, events), event) { assert OverlapsAt(entries, memo, all, n); }
    if k :| 0 <= k < n && OverlapsAt(entries, memo, events, k) { assert OverlapsAt(entries, memo, all, k); }
  }

  /** A schedule sends one effect to its executor twice exactly when two calls with that effect overlap. */
  lemma {:induction false} TwiceIffOverlap(entries: seq<Entry>, memo: map<ExecutionKey, Json>, events: seq<Event>)
    ensures Twice(entries, Run(entries, memo, events)) <==> SomeOverlap(entries, memo, events)
  {
    if events != [] {
      var init, last := events[..|events| - 1], events[|events| - 1];
      assert events == init + [last];
      TwiceIffOverlap(entries, memo, init);
      RunConsistent(entries, memo, init);
      StepTwiceIff(entries, memo, Run(entries, memo, init), last);
      OverlapSnoc(entries, memo, init, last);
      RunSnoc(entries, memo, init, last);
    }
  }

  /** Two calls of the batch have one effect, and the memo does not know it yet. */
  predicate HasTwins(entries: seq<Entry>, memo: map<ExecutionKey, Json>) {
    exists i, j :: 0 <= i < j < |entries| && SameEffect(entries[i], entries[j]) && entries[i].key.value !in memo
  }

  /** Run together, a batch can send an effect twice exactly when it holds two calls of one effect still unknown. */
  lemma TogetherTwiceIff(entries: seq<Entry>, memo: map<ExecutionKey, Json>)
    ensures (exists events :: Twice(entries, Run(entries, memo, events))) <==> HasTwins(entries, memo)
  {
    if events :| Twice(entries, Run(entries, memo, events)) {
      RunConsistent(entries, memo, events);
    }
    if HasTwins(entries, memo) {
      var i, j :| 0 <= i < j < |entries| && SameEffect(entries[i], entries[j]) && entries[i].key.value !in memo;
      StartedTogether(entries, memo, i, j);
    }
  }

  /** Two calls of one effect started together both reach their executor. */
  lemma StartedTogether(entries: seq<Entry>, memo: map<ExecutionKey, Json>, i: nat, j: nat)
    requires i < |entries| && j < |entries| && i != j && SameEffect(entries[i], entries[j])
    requires entries[i].key.value !in memo
    ensures var b := Run(entries, memo, [Start(i), Start(j)]);
            b.phases[i].Running? && b.phases[j].Running? && Twice(entries, b)
  {
    RunSnoc(entries, memo, [], Start(i));
    RunSnoc(entries, memo, [Start(i)], Start(j));
    assert [] + [Start(i)] == [Start(i)] && [Start(i)] + [Start(j)] == [Start(i), Start(j)];
    TwiceBy(entries, Run(entries, memo, [Start(i), Start(j)]), i, j);
  }

  // ----- the guard -----

  predicate AllReads(entries: seq<Entry>) { forall i :: 0 <= i < |entries| ==> entries[i].key.None? }

  /** One call after another, each settled before the next one starts. */
  function Sequential(n: nat): seq<Event> {
    if n == 0 then [] else Sequential(n - 1) + [Start(n - 1)] + [Settle(n - 1)]
  }

  /** What the guard lets through: anything when all calls are reads, else the calls one after another. */
  predicate Guarded(entries: seq<Entry>, events: seq<Event>) {
    AllReads(entries) || events <= Sequential(|entries|)
  }

  /** The first n calls are done and the others wait. */
  predicate DoneTo(b: Batch, n: nat) {
    forall i :: 0 <= i < |b.phases| ==> if i < n then b.phases[i].Ran? || b.phases[i].Reused? else b.phases[i].Waiting?
  }

  lemma {:induction false} SequentialDone(entries: seq<Entry>, memo: map<ExecutionKey, Json>, n: nat)
    requires n <= |entries|
    ensures DoneTo(Run(entries, memo, Sequential(n)), n)
  {
    if n > 0 {
      SequentialDone(entries, memo, n - 1);
      OneDone(entries, memo, Sequential(n - 1), n - 1);
    }
  }

  lemma OneDone(entries: seq<Entry>, memo: map<ExecutionKey, Json>, events: seq<Event>, n: nat)
    requires n < |entries| && DoneTo(Run(entries, memo, events), n)
    ensures DoneTo(Run(entries, memo, events + [Start(n)] + [Settle(n)]), n + 1)
  {
    TwoSteps(entries, memo, events, n);
  }

  lemma TwoSteps(entries: seq<Entry>, memo: map<ExecutionKey, Json>, events: seq<Event>, n: nat)
    ensures Run(entries, memo, events + [Start(n)] + [Settle(n)])
         == Step(entries, Step(entries, Run(entries, memo, events), Start(n)), Settle(n))
  {
    RunSnoc(entries, memo, events, Start(n));
    RunSnoc(entries, memo, events + [Start(n)], Settle(n));
  }

  /** Where a call starts in a sequential schedule, the calls before it are done. */
  lemma {:induction false} StartsAfter(n: nat, k: nat, i: nat)
    requires k < |Sequential(n)| && Sequential(n)[k] == Start(i)
    ensures i < n && Sequential(n)[..k] == Sequential(i)
  {
    var before := Sequential(n - 1);
    if k < |before| {
      StartsAfter(n - 1, k, i);
      assert Sequential(n)[..k] == before[..k];
    } else {
      assert k == |before| && Sequential(n)[..k] == before;
    }
  }

  /** With the guard no schedule sends an effect twice. */
  lemma GuardedNeverTwice(entries: seq<Entry>, memo: map<ExecutionKey, Json>, events: seq<Event>)
    requires Guarded(entries, events)
    ensures !Twice(entries, Run(entries, memo, events))
  {
    TwiceIffOverlap(entries, memo, events);
    forall k | 0 <= k < |events| ensures !OverlapsAt(entries, memo, events, k) {
      if !AllReads(entries) && events[k].Start? {
        StartsIdle(entries, memo, events, k);
      }
    }
  }

  lemma StartsIdle(entries: seq<Entry>, memo: map<ExecutionKey, Json>, events: seq<Event>, k: nat)
    requires events <= Sequential(|entries|) && k < |events| && events[k].Start?
    ensures DoneTo(Run(entries, memo, events[..k]), events[k].i)
  {
    StartsAfter(|entries|, k, events[k].i);
    assert events[..k] == Sequential(|entries|)[..k];
    SequentialDone(entries, memo, events[k].i);
  }

  // ----- one after another -----

  /** A call started and settled with nothing in between goes as the memo's own method says. */
  lemma OneRuns(turn: seq<Entry>, entries: seq<Entry>, b: Batch, n: nat)
    requires |b.phases| == |entries| && n < |entries| && b.phases[n].Waiting? && MemoMatches(b.completed, turn)
    ensures var b', longer := Step(entries, Step(entries, b, Start(n)), Settle(n)), turn + [entries[n]];
            MemoMatches(b'.completed, longer)
            && b'.phases == b.phases[n := if First(longer, |turn|) == |turn| then Ran(Answer(longer, |turn|))
                                          else Reused(Answer(longer, |turn|))]
  {
    var e := entries[n];
    if e.key.Some? && e.key.value in b.completed {
      RepeatedCall(b.completed, turn, e);
    } else {
      FirstCall(b.completed, turn, e);
      assert b.phases[n := Running][n := Ran(e.answer)] == b.phases[n := Ran(e.answer)];
    }
  }

  /** What call i of the batch comes to: the first of the turn with its effect runs, the others get its answer. */
  ghost function Fate(turn: seq<Entry>, base: nat, i: nat): Phase
    requires base + i < |turn|
  {
    if First(turn, base + i) == base + i then Ran(Answer(turn, base + i)) else Reused(Answer(turn, base + i))
  }

  lemma FateStable(turn: seq<Entry>, e: Entry, base: nat, i: nat)
    requires base + i < |turn|
    ensures Fate(turn + [e], base, i) == Fate(turn, base, i)
  {
    FirstStable(turn, e, base + i);
  }

  /**
   * Run one after another, a batch leaves the memo that holds the turn with the batch at its end, and every call
   * is answered as the first call of the turn with its effect was.
   */
  lemma {:induction false} SequentialAnswers(turn: seq<Entry>, entries: seq<Entry>, memo: map<ExecutionKey, Json>,
      n: nat)
    requires MemoMatches(memo, turn) && n <= |entries|
    ensures AnsweredTo(turn, entries, Run(entries, memo, Sequential(n)), n)
  {
    if n == 0 {
      assert turn + entries[..0] == turn;
    } else {
      SequentialAnswers(turn, entries, memo, n - 1);
      NextAnswers(turn, entries, memo, Sequential(n - 1), n - 1);
    }
  }

  /** The first n calls are answered, the others wait. */
  ghost predicate AnsweredTo(turn: seq<Entry>, entries: seq<Entry>, b: Batch, n: nat) {
    && |b.phases| == |entries| && n <= |entries|
    && MemoMatches(b.completed, turn + entries[..n])
    && forall i :: 0 <= i < |entries| ==>
         b.phases[i] == if i < n then Fate(turn + entries[..n], |turn|, i) else Waiting
  }

  lemma NextAnswers(turn: seq<Entry>, entries: seq<Entry>, memo: map<ExecutionKey, Json>, events: seq<Event>, n: nat)
    requires n < |entries| && AnsweredTo(turn, entries, Run(entries, memo, events), n)
    ensures AnsweredTo(turn, entries, Run(entries, memo, events + [Start(n)] + [Settle(n)]), n + 1)
  {
    TwoSteps(entries, memo, events, n);
    NextAnswered(turn, entries, Run(entries, memo, events), n);
  }

  lemma NextAnswered(turn: seq<Entry>, entries: seq<Entry>, b: Batch, n: nat)
    requires n < |entries| && AnsweredTo(turn, entries, b, n)
    ensures AnsweredTo(turn, entries, Step(entries, Step(entries, b, Start(n)), Settle(n)), n + 1)
  {
    var before, e := turn + entries[..n], entries[n];
    OneRuns(before, entries, b, n);
    assert turn + entries[..n + 1] == before + [e];
    forall i: nat | i < n ensures Fate(before + [e], |turn|, i) == Fate(before, |turn|, i) {
      FateStable(before, e, |turn|, i);
    }
  }

  // ----- reads together -----

  predicate Settled(b: Batch) { forall i :: 0 <= i < |b.phases| ==> b.phases[i].Ran? || b.phases[i].Reused? }

  lemma {:induction false} ReadsRun(entries: seq<Entry>, memo: map<ExecutionKey, Json>, events: seq<Event>)
    requires AllReads(entries)
    ensures var b := Run(entries, memo, events);
            b.completed == memo
            && forall i :: 0 <= i < |entries| ==> b.phases[i] in {Waiting, Running, Ran(entries[i].answer)}
  {
    if events != [] { ReadsRun(entries, memo, events[..|events| - 1]); }
  }

  /** Whatever order reads run in, together or not, the finished batch is the one that runs them one by one. */
  lemma ReadsInAnyOrder(entries: seq<Entry>, memo: map<ExecutionKey, Json>, events: seq<Event>)
    requires AllReads(entries) && Settled(Run(entries, memo, events))
    ensures Run(entries, memo, events) == Run(entries, memo, Sequential(|entries|))
  {
    var b, one := Run(entries, memo, events), Run(entries, memo, Sequential(|entries|));
    ReadsRun(entries, memo, events);
    ReadsRun(entries, memo, Sequential(|entries|));
    SequentialDone(entries, memo, |entries|);
    forall i | 0 <= i < |entries| ensures b.phases[i] == one.phases[i] {}
    assert b.phases == one.phases;
  }
}
