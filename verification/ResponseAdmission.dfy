/** The admission controller: a bounded semaphore with a bounded FIFO queue. */
module ResponseAdmission {

  // ----- the protocol as a state machine -----

  /** What became of an acquire call, known by its ticket: the number of acquires before it. */
  datatype Status = Queued | Held | Released | Refused(reason: Reason)

  datatype Reason = AlreadyAborted | QueueFull | TimedOut | Aborted

  datatype Event = Acquire(aborted: bool) | Timeout(t: nat) | Abort(t: nat) | Release(t: nat)

  datatype Limits = Limits(maxConcurrent: nat, maxQueued: nat)

  /** `settled` lists the tickets in the order their promises were resolved or rejected, `grants` those resolved. */
  datatype State = State(
    active: nat, queue: seq<nat>, status: seq<Status>, grants: seq<nat>, settled: seq<nat>)

  const INITIAL := State(0, [], [], [], [])

  function Refuse(s: State, t: nat, reason: Reason): State
    requires t < |s.status|
  {
    s.(status := s.status[t := Refused(reason)], settled := s.settled + [t])
  }

  function Grant(s: State, t: nat): State
    requires t < |s.status|
  {
    s.(status := s.status[t := Held], grants := s.grants + [t], settled := s.settled + [t])
  }

  function Position(queue: seq<nat>, t: nat, from: nat := 0): (i: nat)
    requires from <= |queue|
    ensures from <= i <= |queue| && (i < |queue| ==> queue[i] == t)
    ensures forall k :: from <= k < i ==> queue[k] != t
    decreases |queue| - from
  {
    if from == |queue| || queue[from] == t then from else Position(queue, t, from + 1)
  }

  function Without(queue: seq<nat>, t: nat): seq<nat> {
    var i := Position(queue, t);
    if i < |queue| then queue[..i] + queue[i + 1..] else queue
  }

  function Step(l: Limits, s: State, e: Event): State {
    match e
    case Acquire(aborted) =>
      var t := |s.status|;
      var s1 := s.(status := s.status + [Queued]);
      if aborted then Refuse(s1, t, AlreadyAborted)
      else if s.active < l.maxConcurrent then Grant(s1, t).(active := s.active + 1)
      else if |s.queue| >= l.maxQueued then Refuse(s1, t, QueueFull)
      else s1.(queue := s.queue + [t])
    case Timeout(t) =>
      if t < |s.status| && s.status[t].Queued? then Refuse(s, t, TimedOut).(queue := Without(s.queue, t)) else s
    case Abort(t) =>
      if t < |s.status| && s.status[t].Queued? then Refuse(s, t, Aborted).(queue := Without(s.queue, t)) else s
    case Release(t) =>
      if t < |s.status| && s.status[t].Held? then
        var s1 := s.(status := s.status[t := Released]);
        if s.queue != [] && s.queue[0] < |s.status| then Grant(s1, s.queue[0]).(queue := s.queue[1..])
        else s1.(active := if s.active == 0 then 0 else s.active - 1)
      else s
  }

  function Run(l: Limits, events: seq<Event>): State {
    if events == [] then INITIAL else Step(l, Run(l, events[..|events| - 1]), events[|events| - 1])
  }

  // ----- what every reachable state keeps -----

  function Holding(status: seq<Status>): nat {
    if status == [] then 0 else Holding(status[..|status| - 1]) + if status[|status| - 1].Held? then 1 else 0
  }

  predicate Increasing(s: seq<nat>) {
    forall i, j :: 0 <= i < j < |s| ==> s[i] < s[j]
  }

  predicate NoRepeats(s: seq<nat>) {
    forall i, j :: 0 <= i < j < |s| ==> s[i] != s[j]
  }

  /** The queue is exactly the unsettled tickets in arrival order. */
  ghost predicate QueueOk(queue: seq<nat>, status: seq<Status>) {
    && Increasing(queue)
    && (forall t: nat :: t in queue <==> t < |status| && status[t].Queued?)
  }

  /** Every ticket out of the queue was settled, once. */
  ghost predicate SettledOk(settled: seq<nat>, status: seq<Status>) {
    && NoRepeats(settled)
    && (forall t: nat :: t in settled <==> t < |status| && !status[t].Queued?)
  }

  predicate Served(x: Status) { x.Held? || x.Released? }

  /** Grants were given in arrival order, and everyone still waiting came after everyone granted. */
  ghost predicate FifoOk(grants: seq<nat>, queue: seq<nat>, status: seq<Status>) {
    && Increasing(grants)
    && (forall t: nat :: t in grants <==> t < |status| && Served(status[t]))
    && (forall t, g :: t in queue && g in grants ==> g < t)
  }

  predicate CapacityOk(l: Limits, s: State) {
    && s.active == Holding(s.status) <= l.maxConcurrent
    && |s.queue| <= l.maxQueued
    && (s.queue != [] ==> s.active == l.maxConcurrent)
  }

  ghost predicate Inv(l: Limits, s: State) {
    && CapacityOk(l, s)
    && QueueOk(s.queue, s.status)
    && SettledOk(s.settled, s.status)
    && FifoOk(s.grants, s.queue, s.status)
  }

  lemma {:induction false} HoldingUpdate(status: seq<Status>, t: nat, x: Status)
    requires t < |status|
    ensures Holding(status[t := x]) ==
            Holding(status) - (if status[t].Held? then 1 else 0) + (if x.Held? then 1 else 0)
  {
    var n := |status| - 1;
    if t == n {
      assert status[t := x][..n] == status[..n];
    } else {
      assert status[t := x][..n] == status[..n][t := x];
      HoldingUpdate(status[..n], t, x);
    }
  }

  lemma HoldingAppend(status: seq<Status>, x: Status)
    ensures Holding(status + [x]) == Holding(status) + (if x.Held? then 1 else 0)
  {
    assert (status + [x])[..|status|] == status;
  }

  lemma WithoutAt(queue: seq<nat>, t: nat, k: nat)
    requires k < |queue|
    ensures queue[k] != t ==> queue[k] in Without(queue, t)
  {
    var i, r := Position(queue, t), Without(queue, t);
    if queue[k] != t && i < |queue| { assert r[if k < i then k else k - 1] == queue[k]; }
  }

  lemma WithoutFrom(queue: seq<nat>, t: nat, k: nat)
    requires Increasing(queue) && k < |Without(queue, t)|
    ensures Without(queue, t)[k] in queue && Without(queue, t)[k] != t
  {
    var i := Position(queue, t);
    if i < |queue| {
      var m := if k < i then k else k + 1;
      assert Without(queue, t)[k] == queue[m];
      assert if m < i then queue[m] < queue[i] else queue[i] < queue[m];
    }
  }

  lemma WithoutRemoves(queue: seq<nat>, t: nat)
    requires Increasing(queue)
    ensures Increasing(Without(queue, t)) && |Without(queue, t)| <= |queue|
    ensures forall x :: x in Without(queue, t) <==> x in queue && x != t
  {
    var r := Without(queue, t);
    forall x | x in queue && x != t ensures x in r {
      var k :| 0 <= k < |queue| && queue[k] == x;
      WithoutAt(queue, t, k);
    }
    forall x | x in r ensures x in queue && x != t {
      var k :| 0 <= k < |r| && r[k] == x;
      WithoutFrom(queue, t, k);
    }
  }

  // A new ticket is larger than every ticket on record.

  lemma NewTicketQueue(queue: seq<nat>, status: seq<Status>, x: Status)
    requires QueueOk(queue, status)
    ensures QueueOk(if x.Queued? then queue + [|status|] else queue, status + [x])
  {
    forall i | 0 <= i < |queue| ensures queue[i] < |status| { assert queue[i] in queue; }
  }

  lemma NewTicketSettled(settled: seq<nat>, status: seq<Status>, x: Status)
    requires SettledOk(settled, status)
    ensures SettledOk(if x.Queued? then settled else settled + [|status|], status + [x])
  {
    forall i | 0 <= i < |settled| ensures settled[i] < |status| { assert settled[i] in settled; }
  }

  lemma NewTicketFifo(grants: seq<nat>, queue: seq<nat>, status: seq<Status>, x: Status)
    requires FifoOk(grants, queue, status) && QueueOk(queue, status)
    requires Served(x) ==> queue == []
    ensures FifoOk(if Served(x) then grants + [|status|] else grants,
                   if x.Queued? then queue + [|status|] else queue, status + [x])
  {
    forall i | 0 <= i < |grants| ensures grants[i] < |status| { assert grants[i] in grants; }
  }

  /** What an acquire appends to the record. */
  function Arrives(l: Limits, s: State, aborted: bool): Status {
    if aborted then Refused(AlreadyAborted) else if s.active < l.maxConcurrent then Held
    else if |s.queue| >= l.maxQueued then Refused(QueueFull) else Queued
  }

  lemma AcquireStep(l: Limits, s: State, aborted: bool)
    ensures var x, t, n := Arrives(l, s, aborted), |s.status|, Step(l, s, Acquire(aborted));
            && n.status == s.status + [x] && n.active == s.active + (if x.Held? then 1 else 0)
            && n.queue == (if x.Queued? then s.queue + [t] else s.queue)
            && n.grants == (if x.Held? then s.grants + [t] else s.grants)
            && n.settled == (if x.Queued? then s.settled else s.settled + [t])
  {
  }

  lemma AcquireKeeps(l: Limits, s: State, aborted: bool)
    requires Inv(l, s)
    ensures Inv(l, Step(l, s, Acquire(aborted)))
  {
    var x := Arrives(l, s, aborted);
    AcquireStep(l, s, aborted);
    HoldingAppend(s.status, x);
    NewTicketQueue(s.queue, s.status, x);
    NewTicketSettled(s.settled, s.status, x);
    NewTicketFifo(s.grants, s.queue, s.status, x);
  }

  lemma RefuseKeeps(l: Limits, s: State, t: nat, reason: Reason)
    requires Inv(l, s) && t < |s.status| && s.status[t].Queued?
    ensures Inv(l, Refuse(s, t, reason).(queue := Without(s.queue, t)))
  {
    HoldingUpdate(s.status, t, Refused(reason));
    WithoutRemoves(s.queue, t);
  }

  /** Releasing a slot, before anybody is served with it. */
  lemma ReleasedStatus(s: State, t: nat)
    requires t < |s.status| && s.status[t].Held?
    requires QueueOk(s.queue, s.status) && SettledOk(s.settled, s.status) && FifoOk(s.grants, s.queue, s.status)
    ensures var status := s.status[t := Released];
            && QueueOk(s.queue, status) && SettledOk(s.settled, status) && FifoOk(s.grants, s.queue, status)
            && Holding(status) == Holding(s.status) - 1
  {
    HoldingUpdate(s.status, t, Released);
  }

  lemma HeadLeavesQueue(queue: seq<nat>, status: seq<Status>)
    requires queue != [] && QueueOk(queue, status)
    ensures queue[0] < |status| && status[queue[0]].Queued?
    ensures QueueOk(queue[1..], status[queue[0] := Held])
  {
    assert queue[0] in queue;
    var after := status[queue[0] := Held];
    forall t: nat ensures t in queue[1..] <==> t < |after| && after[t].Queued? {
      assert t in queue <==> t < |status| && status[t].Queued?;
      if t in queue && t != queue[0] {
        var i :| 0 <= i < |queue| && queue[i] == t;
        assert queue[1..][i - 1] == t;
      }
      if t in queue[1..] {
        var i :| 0 <= i < |queue[1..]| && queue[1..][i] == t;
        assert queue[i + 1] == t;
      }
    }
  }

  lemma HeadServed(grants: seq<nat>, queue: seq<nat>, status: seq<Status>)
    requires queue != [] && queue[0] < |status| && Increasing(queue) && FifoOk(grants, queue, status)
    ensures FifoOk(grants + [queue[0]], queue[1..], status[queue[0] := Held])
  {
    var w := queue[0];
    assert w in queue;
    forall i | 0 <= i < |grants| ensures grants[i] < w { assert grants[i] in grants; }
    forall t | t in queue[1..] ensures w < t && t in queue {
      var i :| 0 <= i < |queue[1..]| && queue[1..][i] == t;
      assert queue[i + 1] == t;
    }
  }

  lemma GrantHead(s: State)
    requires s.queue != []
    requires QueueOk(s.queue, s.status) && SettledOk(s.settled, s.status) && FifoOk(s.grants, s.queue, s.status)
    ensures s.queue[0] < |s.status|
    ensures var n := Grant(s, s.queue[0]).(queue := s.queue[1..]);
            && QueueOk(n.queue, n.status) && SettledOk(n.settled, n.status) && FifoOk(n.grants, n.queue, n.status)
            && Holding(n.status) == Holding(s.status) + 1
  {
    HeadLeavesQueue(s.queue, s.status);
    HeadServed(s.grants, s.queue, s.status);
    HoldingUpdate(s.status, s.queue[0], Held);
  }

  lemma ReleaseKeeps(l: Limits, s: State, t: nat)
    requires Inv(l, s) && t < |s.status| && s.status[t].Held?
    ensures Inv(l, Step(l, s, Release(t)))
  {
    ReleasedStatus(s, t);
    HoldingPositive(s.status, t);
    if s.queue != [] { GrantHead(s.(status := s.status[t := Released])); }
  }

  lemma {:induction false} HoldingPositive(status: seq<Status>, t: nat)
    requires t < |status| && status[t].Held?
    ensures Holding(status) > 0
  {
    if t < |status| - 1 { HoldingPositive(status[..|status| - 1], t); }
  }

  lemma StepKeeps(l: Limits, s: State, e: Event)
    requires Inv(l, s)
    ensures Inv(l, Step(l, s, e))
  {
    match e
    case Acquire(aborted) => AcquireKeeps(l, s, aborted);
    case Timeout(t) => if t < |s.status| && s.status[t].Queued? { RefuseKeeps(l, s, t, TimedOut); }
    case Abort(t) => if t < |s.status| && s.status[t].Queued? { RefuseKeeps(l, s, t, Aborted); }
    case Release(t) => if t < |s.status| && s.status[t].Held? { ReleaseKeeps(l, s, t); }
  }

  /** Main result: any interleaving of acquires, timeouts, aborts and releases keeps the invariant. */
  lemma {:induction false} EveryRunKeepsInvariant(l: Limits, events: seq<Event>)
    ensures Inv(l, Run(l, events))
  {
    if events != [] {
      EveryRunKeepsInvariant(l, events[..|events| - 1]);
      StepKeeps(l, Run(l, events[..|events| - 1]), events[|events| - 1]);
    }
  }

  lemma RunSnoc(l: Limits, events: seq<Event>, e: Event)
    ensures Run(l, events + [e]) == Step(l, Run(l, events), e)
  {
    assert (events + [e])[..|events|] == events;
  }

  /** Some interleaving leads here. */
  ghost predicate Reached(l: Limits, s: State) { exists events :: s == Run(l, events) }

  lemma ReachedStep(l: Limits, s: State, e: Event)
    requires Reached(l, s)
    ensures Reached(l, Step(l, s, e))
  {
    var events :| s == Run(l, events);
    RunSnoc(l, events, e);
  }

  lemma ReachedKeeps(l: Limits, s: State)
    requires Reached(l, s)
    ensures Inv(l, s)
  {
    var events :| s == Run(l, events);
    EveryRunKeepsInvariant(l, events);
  }

  lemma HeadIsQueued(l: Limits, s: State)
    requires Reached(l, s) && s.queue != []
    ensures s.queue[0] < |s.status| && s.status[s.queue[0]].Queued?
  {
    ReachedKeeps(l, s);
    assert s.queue[0] in s.queue;
  }

  /** Once a ticket is refused or released nothing can touch it; a held slot can only be released. */
  lemma {:induction false} SettledForGood(l: Limits, events: seq<Event>, more: seq<Event>, t: nat)
    requires t < |Run(l, events).status| && !Run(l, events).status[t].Queued?
    ensures var was, now := Run(l, events).status, Run(l, events + more).status;
            t < |now| && (now[t] == was[t] || (was[t].Held? && now[t].Released?))
  {
    if more == [] {
      assert events + more == events;
    } else {
      var n := |more| - 1;
      SettledForGood(l, events, more[..n], t);
      EveryRunKeepsInvariant(l, events + more[..n]);
      assert (events + more)[..|events + more| - 1] == events + more[..n];
      SettledStep(l, Run(l, events + more[..n]), more[n], t);
    }
  }

  lemma SettledStep(l: Limits, s: State, e: Event, t: nat)
    requires QueueOk(s.queue, s.status) && t < |s.status| && !s.status[t].Queued?
    ensures var now := Step(l, s, e).status;
            t < |now| && (now[t] == s.status[t] || (s.status[t].Held? && now[t].Released?))
  {
    if s.queue != [] { assert s.queue[0] in s.queue; }
  }

  /** A second release of the same slot changes nothing, whatever happened in between. */
  lemma ReleaseTwiceIsOnce(l: Limits, events: seq<Event>, t: nat, more: seq<Event>)
    requires t < |Run(l, events).status| && Run(l, events).status[t].Held?
    ensures var later := events + [Release(t)] + more;
            Run(l, later + [Release(t)]) == Run(l, later)
  {
    var first := events + [Release(t)];
    assert first[..|first| - 1] == events;
    EveryRunKeepsInvariant(l, events);
    var s := Run(l, events);
    if s.queue != [] { assert s.queue[0] in s.queue; }
    SettledForGood(l, first, more, t);
    var later := first + more;
    assert (later + [Release(t)])[..|later|] == later;
  }

  /** The waiter that came first is served first: nobody overtakes a waiter that is still queued. */
  lemma NobodyOvertakes(l: Limits, events: seq<Event>, early: nat, late: nat)
    requires early < late < |Run(l, events).status|
    requires Run(l, events).status[late].Held? || Run(l, events).status[late].Released?
    ensures !Run(l, events).status[early].Queued?
  {
    EveryRunKeepsInvariant(l, events);
    var s := Run(l, events);
    assert late in s.grants;
    assert s.status[early].Queued? ==> early in s.queue;
  }

  // ----- the controller -----

  /** A queued acquire; `armed` says its timer is set and its abort listener attached. */
  class Waiter {
    ghost const ticket: nat
    var armed: bool

    constructor (ghost t: nat)
      ensures ticket == t && armed
    {
      ticket := t;
      armed := true;
    }
  }

  /** The function a granted acquire hands out, with its own released flag. */
  class Handle {
    ghost const ticket: nat
    var released: bool

    constructor (ghost t: nat)
      ensures ticket == t && !released
    {
      ticket := t;
      released := false;
    }
  }

  datatype Outcome = Granted(handle: Handle) | Waiting(waiter: Waiter) | Rejected(reason: Reason)

  /** The waiter list shows the queue of tickets. */
  ghost predicate InLine(waiters: seq<Waiter>, queue: seq<nat>, waiterOf: map<nat, Waiter>) {
    && |waiters| == |queue|
    && (forall i :: 0 <= i < |queue| ==> queue[i] in waiterOf && waiterOf[queue[i]] == waiters[i])
  }

  class ResponseAdmissionController {
    const limits: Limits
    var active: nat
    var waiters: seq<Waiter>
    ghost var state: State
    ghost var waiterOf: map<nat, Waiter>
    ghost var handleOf: map<nat, Handle>

    ghost predicate Valid()
      reads this, waiterOf.Values, handleOf.Values
    {
      && Reached(limits, state)
      && active == state.active
      && InLine(waiters, state.queue, waiterOf)
      && WaitersOk()
      && HandlesOk()
    }

    ghost predicate WaitersOk()
      reads this, waiterOf.Values
    {
      forall t :: t in waiterOf ==>
        waiterOf[t].ticket == t < |state.status| && (waiterOf[t].armed <==> state.status[t].Queued?)
    }

    ghost predicate HandlesOk()
      reads this, handleOf.Values
    {
      forall t :: t in handleOf ==>
        handleOf[t].ticket == t < |state.status|
        && state.status[t] == if handleOf[t].released then Status.Released else Held
    }

    constructor (limits: Limits)
      ensures Valid() && state == INITIAL && this.limits == limits
      ensures waiterOf == map[] && handleOf == map[]
    {
      this.limits := limits;
      active := 0;
      waiters := [];
      state := INITIAL;
      waiterOf := map[];
      handleOf := map[];
      assert Run(limits, []) == INITIAL;
    }

    /** At every point the state is one that some run of the protocol reaches. */
    lemma Reachable()
      requires Valid()
      ensures Inv(limits, state)
    {
      ReachedKeeps(limits, state);
    }

    method Acquire(aborted: bool) returns (r: Outcome)
      requires Valid()
      modifies this
      ensures Valid() && state == Step(limits, old(state), Event.Acquire(aborted))
      ensures var t := |old(state).status|;
              match state.status[t]
              case Held => r.Granted? && fresh(r.handle) && waiterOf == old(waiterOf)
                  && handleOf == old(handleOf)[t := r.handle]
              case Queued => r.Waiting? && fresh(r.waiter) && waiterOf == old(waiterOf)[t := r.waiter]
                  && handleOf == old(handleOf)
              case Refused(reason) => r == Rejected(reason) && waiterOf == old(waiterOf) && handleOf == old(handleOf)
              case Released => false
    {
      ghost var t := |state.status|;
      ReachedStep(limits, state, Event.Acquire(aborted));
      state := Step(limits, state, Event.Acquire(aborted));
      if aborted { return Rejected(AlreadyAborted); }
      if active < limits.maxConcurrent {
        active := active + 1;
        var handle := new Handle(t);
        handleOf := handleOf[t := handle];
        return Granted(handle);
      }
      if |waiters| >= limits.maxQueued { return Rejected(QueueFull); }
      var waiter := new Waiter(t);
      waiters := waiters + [waiter];
      waiterOf := waiterOf[t := waiter];
      return Waiting(waiter);
    }

    /** The timer callback, or the abort listener: neither runs once the waiter was cleaned up. */
    method GiveUp(waiter: Waiter, timeout: bool)
      requires Valid() && waiter in waiterOf.Values
      modifies this, waiter
      ensures Valid() && waiterOf == old(waiterOf) && handleOf == old(handleOf)
      ensures state == Step(limits, old(state), if timeout then Timeout(waiter.ticket) else Abort(waiter.ticket))
    {
      ghost var e := if timeout then Timeout(waiter.ticket) else Abort(waiter.ticket);
      ghost var queue := state.queue;
      ReachedStep(limits, state, e);
      if !waiter.armed { return; }
      state := Step(limits, state, e);
      waiters := RemoveWaiter(waiters, waiter, queue, waiterOf);
      waiter.armed := false;
    }

    method Release(handle: Handle)
      requires Valid() && handle in handleOf.Values
      modifies this, handle, waiters
      ensures Valid() && waiterOf == old(waiterOf)
      ensures state == Step(limits, old(state), Event.Release(handle.ticket))
      ensures var queue := old(state).queue;
              if old(handle.released) || queue == [] then handleOf == old(handleOf)
              else queue[0] in handleOf && fresh(handleOf[queue[0]])
                   && handleOf == old(handleOf)[queue[0] := handleOf[queue[0]]]
    {
      ghost var after := Step(limits, state, Event.Release(handle.ticket));
      ReachedStep(limits, state, Event.Release(handle.ticket));
      if waiters != [] { HeadIsQueued(limits, state); }
      if handle.released { return; }
      handle.released := true;
      if waiters == [] {
        active := if active == 0 then 0 else active - 1;
        state := after;
      } else {
        HandOver(handle, after);
      }
    }

    /** The slot of a released handle goes to the first waiter. */
    method HandOver(handle: Handle, ghost after: State)
      requires active == after.active && waiters != [] && InLine(waiters, state.queue, waiterOf) && WaitersOk()
      requires handle.released && handle.ticket in handleOf && handleOf[handle.ticket] == handle
      requires forall t :: t in handleOf && t != handle.ticket ==>
                 handleOf[t].ticket == t < |state.status|
                 && state.status[t] == if handleOf[t].released then Status.Released else Held
      requires handle.ticket < |state.status| && state.status[handle.ticket] == Held
      requires state.queue[0] < |state.status| && state.status[state.queue[0]] == Queued
      requires after.queue == state.queue[1..]
      requires after.status == state.status[handle.ticket := Status.Released][state.queue[0] := Held]
      modifies this, waiters
      ensures state == after && active == old(active) && waiterOf == old(waiterOf)
      ensures InLine(waiters, state.queue, waiterOf) && WaitersOk() && HandlesOk()
      ensures var t := old(state).queue[0];
              t in handleOf && fresh(handleOf[t]) && handleOf == old(handleOf)[t := handleOf[t]]
    {
      ghost var t := state.queue[0];
      state := after;
      assert t !in handleOf;
      var next := waiters[0];
      waiters := waiters[1..];
      next.armed := false;
      var granted := new Handle(t);
      handleOf := handleOf[t := granted];
    }
  }

  /** `indexOf` and `splice`. */
  method RemoveWaiter(waiters: seq<Waiter>, waiter: Waiter, ghost queue: seq<nat>, ghost waiterOf: map<nat, Waiter>)
      returns (rest: seq<Waiter>)
    requires InLine(waiters, queue, waiterOf)
    requires waiter.ticket in waiterOf && waiterOf[waiter.ticket] == waiter
    requires forall t :: t in waiterOf ==> waiterOf[t].ticket == t
    ensures InLine(rest, Without(queue, waiter.ticket), waiterOf)
  {
    var i := 0;
    while i < |waiters| && waiters[i] != waiter
      invariant 0 <= i <= |waiters|
      invariant forall k :: 0 <= k < i ==> waiters[k] != waiter
    {
      i := i + 1;
    }
    assert i == Position(queue, waiter.ticket);
    rest := if i < |waiters| then waiters[..i] + waiters[i + 1..] else waiters;
  }
}
