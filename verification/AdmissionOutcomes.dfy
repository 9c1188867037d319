/** The admission protocol on its tickets alone, without counter or queue: what becomes of every acquire call. */
module AdmissionOutcomes {
  import opened ResponseAdmission

  function Waiting(status: seq<Status>): nat {
    if status == [] then 0 else Waiting(status[..|status| - 1]) + if status[|status| - 1].Queued? then 1 else 0
  }

  predicate Queueing(status: seq<Status>, t: nat) { t < |status| && status[t].Queued? }

  /** The ticket that has waited longest. */
  predicate FirstQueueing(status: seq<Status>, t: nat) {
    Queueing(status, t) && forall u :: 0 <= u < t ==> !status[u].Queued?
  }

  /** What one event does to the tickets, told from the tickets. */
  predicate Moves(l: Limits, before: seq<Status>, e: Event, after: seq<Status>) {
    match e
    case Acquire(aborted) =>
      after == before + [if aborted then Refused(AlreadyAborted)
                         else if Holding(before) < l.maxConcurrent then Held
                         else if Waiting(before) >= l.maxQueued then Refused(QueueFull)
                         else Queued]
    case Timeout(t) => after == if Queueing(before, t) then before[t := Refused(TimedOut)] else before
    case Abort(t) => after == if Queueing(before, t) then before[t := Refused(Aborted)] else before
    case Release(t) =>
      if t < |before| && before[t].Held? then
        if Waiting(before) == 0 then after == before[t := Released]
        else exists u :: 0 <= u < |before| && FirstQueueing(before, u) && after == before[t := Released][u := Held]
      else after == before
  }

  lemma {:induction false} WaitingUpdate(status: seq<Status>, t: nat)
    requires Queueing(status, t)
    ensures Waiting(status) == Waiting(status[t := Released]) + 1
  {
    var n := |status| - 1;
    if t == n {
      assert status[t := Released][..n] == status[..n];
    } else {
      assert status[t := Released][..n] == status[..n][t := Released];
      WaitingUpdate(status[..n], t);
    }
  }

  lemma {:induction false} NobodyWaits(status: seq<Status>)
    ensures Waiting(status) == 0 <==> forall t :: 0 <= t < |status| ==> !status[t].Queued?
  {
    if status != [] { NobodyWaits(status[..|status| - 1]); }
  }

  /** The queue is as long as there are tickets waiting. */
  lemma {:induction false} QueueCounts(queue: seq<nat>, status: seq<Status>)
    requires QueueOk(queue, status)
    ensures |queue| == Waiting(status)
  {
    NobodyWaits(status);
    if queue == [] {
      assert forall t: nat :: t < |status| && status[t].Queued? ==> t in queue;
    } else {
      assert queue[0] in queue;
      var less := status[queue[0] := Released];
      WaitingUpdate(status, queue[0]);
      forall t: nat ensures t in queue[1..] <==> t < |less| && less[t].Queued? { InRest(queue, t); }
      QueueCounts(queue[1..], less);
    }
  }

  lemma InRest(queue: seq<nat>, t: nat)
    requires queue != [] && Increasing(queue)
    ensures t in queue[1..] <==> t in queue && t != queue[0]
  {
    assert queue == [queue[0]] + queue[1..];
    if t in queue[1..] {
      var i :| 0 <= i < |queue[1..]| && queue[1..][i] == t;
      assert queue[i + 1] == t;
    }
  }

  lemma HeadWaitsLongest(queue: seq<nat>, status: seq<Status>)
    requires QueueOk(queue, status) && queue != []
    ensures FirstQueueing(status, queue[0])
  {
    assert queue[0] in queue;
    forall i | 0 <= i < |queue| ensures queue[0] <= queue[i] {}
    forall u: nat | u < queue[0] ensures u !in queue {}
  }

  /** The counter and the queue decide as the tickets would. */
  lemma StepMoves(l: Limits, s: State, e: Event)
    requires Inv(l, s)
    ensures Moves(l, s.status, e, Step(l, s, e).status)
  {
    QueueCounts(s.queue, s.status);
    match e
    case Acquire(aborted) => AcquireMoves(l, s, aborted);
    case Timeout(t) =>
    case Abort(t) =>
    case Release(t) =>
      if s.queue != [] { HeadWaitsLongest(s.queue, s.status); }
  }

  lemma AcquireMoves(l: Limits, s: State, aborted: bool)
    requires Inv(l, s) && |s.queue| == Waiting(s.status)
    ensures Moves(l, s.status, Acquire(aborted), Step(l, s, Acquire(aborted)).status)
  {
  }

  /** Main result on outcomes: in every run each event does to the tickets what they themselves call for. */
  lemma EveryEventMoves(l: Limits, events: seq<Event>, e: Event)
    ensures Moves(l, Run(l, events).status, e, Run(l, events + [e]).status)
  {
    EveryRunKeepsInvariant(l, events);
    StepMoves(l, Run(l, events), e);
    RunSnoc(l, events, e);
  }
}
