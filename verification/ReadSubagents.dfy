/** The read-subagent pool: workers interleaving at their awaits over shared budgets. */
module ReadSubagents {
  import opened Options

  datatype Status = Completed | Partial | Failed

  datatype Result = Result(id: string, status: Status, evidence: nat)

  datatype Limits = Limits(
    maxConcurrentWorkers: nat, maxWorkerIterations: nat, maxTotalModelCalls: nat, maxToolLeaves: nat)

  /** What a batch starts from; some of the shared budgets may be spent already. */
  datatype Batch = Batch(tasks: seq<string>, concurrency: int, modelCalls: nat, toolLeaves: nat)

  // ----- the pool as a state machine -----

  /** Where a worker stands between two of its awaits; `i` is its task, `n` its iteration, `e` its evidence so far. */
  datatype Worker =
    | Ready
    | Head(i: nat, n: nat, e: nat, gap: bool)
    | Thinking(i: nat, n: nat, e: nat, gap: bool)
    | Reading(i: nat, n: nat, e: nat, gap: bool, calls: nat)
    | Returning(i: nat, result: Result)
    | Finished

  /** What the worker's await delivers, or what the root turn does in the meantime. */
  datatype Event =
    | Take(w: nat, aborted: bool, toolsMissing: bool)
    | Ask(w: nat, aborted: bool)
    | Answer(w: nat, response: Response)
    | Read(w: nat, unusable: bool)
    | Settle(w: nat)
    | Crash(w: nat)
    | RootReserve(leaves: nat)

  datatype Response = Unusable | Text(empty: bool) | BadEnvelope | Calls(count: nat, rejected: bool)

  /** `written` records every assignment to a result slot, in order. */
  datatype Pool = Pool(
    tasks: seq<string>, workers: seq<Worker>, nextTask: nat,
    results: seq<Option<Result>>, modelCalls: nat, toolLeaves: nat, written: seq<nat>)

  /** `Math.min(Math.max(1, concurrency), maxConcurrentWorkers, tasks.length)` */
  function WorkerCount(concurrency: int, maxConcurrentWorkers: nat, tasks: nat): nat {
    var wanted := if concurrency > 1 then concurrency else 1;
    var capped := if wanted < maxConcurrentWorkers then wanted else maxConcurrentWorkers;
    if capped < tasks then capped else tasks
  }

  lemma WorkersAreBounded(concurrency: int, maxConcurrentWorkers: nat, tasks: nat)
    ensures WorkerCount(concurrency, maxConcurrentWorkers, tasks) <= maxConcurrentWorkers
    ensures WorkerCount(concurrency, maxConcurrentWorkers, tasks) == 0 <==> maxConcurrentWorkers == 0 || tasks == 0
  {
  }

  function Start(l: Limits, b: Batch): Pool {
    var workers := WorkerCount(b.concurrency, l.maxConcurrentWorkers, |b.tasks|);
    Pool(b.tasks, seq(workers, _ => Ready), 0, seq(|b.tasks|, _ => None), b.modelCalls, b.toolLeaves, [])
  }

  function PartialOrFailed(p: Pool, i: nat, e: nat): Worker
    requires i < |p.tasks|
  {
    Returning(i, Result(p.tasks[i], if e > 0 then Partial else Failed, e))
  }

  function Set(p: Pool, w: nat, worker: Worker): Pool
    requires w < |p.workers|
  {
    p.(workers := p.workers[w := worker])
  }

  predicate MidTask(w: Worker) { w.Head? || w.Thinking? || w.Reading? }

  /** One atomic stretch of code; an event that does not fit where its worker stands changes nothing. */
  function Step(l: Limits, p: Pool, event: Event): Pool {
    match event
    case RootReserve(leaves) =>
      if p.toolLeaves + leaves > l.maxToolLeaves then p else p.(toolLeaves := p.toolLeaves + leaves)
    case Take(w, aborted, toolsMissing) =>
      if w < |p.workers| && p.workers[w].Ready? then
        var i := p.nextTask;
        var q := p.(nextTask := i + 1);
        if i >= |p.tasks| then Set(q, w, Finished)
        else if aborted || toolsMissing then Set(q, w, Returning(i, Result(p.tasks[i], Failed, 0)))
        else Set(q, w, Head(i, 0, 0, false))
      else p
    case Ask(w, aborted) =>
      if w < |p.workers| && p.workers[w].Head? && p.workers[w].i < |p.tasks| then
        var Head(i, n, e, gap) := p.workers[w];
        if n >= l.maxWorkerIterations || aborted || p.modelCalls >= l.maxTotalModelCalls then
          Set(p, w, PartialOrFailed(p, i, e))
        else Set(p.(modelCalls := p.modelCalls + 1), w, Thinking(i, n, e, gap))
      else p
    case Answer(w, response) =>
      if w < |p.workers| && p.workers[w].Thinking? && p.workers[w].i < |p.tasks| then
        var Thinking(i, n, e, gap) := p.workers[w];
        match response
        case Unusable => Set(p, w, PartialOrFailed(p, i, e))
        case BadEnvelope => Set(p, w, PartialOrFailed(p, i, e))
        case Text(empty) =>
          if empty || e == 0 then Set(p, w, PartialOrFailed(p, i, e))
          else Set(p, w, Returning(i, Result(p.tasks[i], if gap then Partial else Completed, e)))
        case Calls(count, rejected) =>
          if p.toolLeaves + count > l.maxToolLeaves then Set(p, w, PartialOrFailed(p, i, e))
          else if rejected then Set(p, w, Head(i, n + 1, e, true))
          else Set(p.(toolLeaves := p.toolLeaves + count), w, Reading(i, n, e, gap, count))
      else p
    case Read(w, unusable) =>
      if w < |p.workers| && p.workers[w].Reading? then
        var Reading(i, n, e, gap, calls) := p.workers[w];
        Set(p, w, Head(i, n + 1, e + calls, gap || unusable))
      else p
    case Crash(w) =>
      if w < |p.workers| && MidTask(p.workers[w]) && p.workers[w].i < |p.tasks| then
        Set(p, w, Returning(p.workers[w].i, Result(p.tasks[p.workers[w].i], Failed, 0)))
      else p
    case Settle(w) =>
      if w < |p.workers| && p.workers[w].Returning? && p.workers[w].i < |p.results| then
        var Returning(i, result) := p.workers[w];
        Set(p, w, Ready).(results := p.results[i := Some(result)], written := p.written + [i])
      else p
  }

  function Run(l: Limits, p: Pool, schedule: seq<Event>): Pool {
    if schedule == [] then p else Step(l, Run(l, p, schedule[..|schedule| - 1]), schedule[|schedule| - 1])
  }

  // ----- what every interleaving keeps -----

  predicate Busy(w: Worker) { !w.Ready? && !w.Finished? }

  predicate BudgetsOk(l: Limits, p: Pool) {
    p.modelCalls <= l.maxTotalModelCalls && p.toolLeaves <= l.maxToolLeaves
  }

  /** A worker on a task: the task is taken and not yet answered, and the iteration count is within bounds. */
  predicate WorkerOk(l: Limits, p: Pool, w: Worker) {
    && (Busy(w) ==> w.i < |p.tasks| && w.i < p.nextTask && w.i < |p.results| && p.results[w.i].None?)
    && (w.Returning? && w.i < |p.tasks| ==> w.result.id == p.tasks[w.i])
    && (w.Finished? ==> p.nextTask > |p.tasks|)
    && (MidTask(w) ==> w.n <= l.maxWorkerIterations)
    && (w.Thinking? || w.Reading? ==> w.n < l.maxWorkerIterations)
  }

  /** Every busy worker has a task of its own. */
  predicate WorkersOk(l: Limits, p: Pool) {
    && |p.results| == |p.tasks|
    && (forall w :: 0 <= w < |p.workers| ==> WorkerOk(l, p, p.workers[w]))
    && (forall v, w :: 0 <= v < w < |p.workers| && Busy(p.workers[v]) && Busy(p.workers[w]) ==>
        p.workers[v].i != p.workers[w].i)
  }

  /** A slot is filled exactly when it was written, which happens once, with the result of its own task. */
  ghost predicate SlotsOk(p: Pool) {
    && |p.results| == |p.tasks|
    && (forall i :: 0 <= i < |p.tasks| && p.results[i].Some? ==> p.results[i].value.id == p.tasks[i])
    && (forall i :: 0 <= i < |p.tasks| ==> (p.results[i].Some? <==> i in p.written))
    && (forall i :: i in p.written ==> i < |p.tasks|)
    && (forall a, b :: 0 <= a < b < |p.written| ==> p.written[a] != p.written[b])
  }

  ghost predicate WorkedOn(p: Pool, i: nat) {
    exists w :: 0 <= w < |p.workers| && Busy(p.workers[w]) && p.workers[w].i == i
  }

  /** A task is untaken, being worked on, or answered. */
  ghost predicate TasksOk(p: Pool) {
    |p.results| == |p.tasks| &&
    forall i: nat :: i < |p.tasks| ==> (p.results[i].Some? || WorkedOn(p, i) <==> i < p.nextTask)
  }

  ghost predicate Inv(l: Limits, p: Pool) {
    BudgetsOk(l, p) && WorkersOk(l, p) && SlotsOk(p) && TasksOk(p)
  }

  lemma WorkersKept(l: Limits, p: Pool, q: Pool, w: nat)
    requires WorkersOk(l, p) && w < |p.workers| && |q.workers| == |p.workers|
    requires q.tasks == p.tasks && q.results == p.results && q.nextTask >= p.nextTask
    requires forall v :: 0 <= v < |p.workers| && v != w ==> q.workers[v] == p.workers[v]
    requires WorkerOk(l, q, q.workers[w])
    requires Busy(q.workers[w]) ==>
        q.workers[w].i == p.nextTask || (Busy(p.workers[w]) && q.workers[w].i == p.workers[w].i)
    ensures WorkersOk(l, q)
  {
    forall v | 0 <= v < |q.workers| ensures WorkerOk(l, q, q.workers[v]) {
      if v != w { assert WorkerOk(l, p, p.workers[v]); }
    }
    forall v | 0 <= v < |q.workers| && v != w && Busy(q.workers[v]) && Busy(q.workers[w])
      ensures q.workers[v].i != q.workers[w].i
    {
      assert WorkerOk(l, p, p.workers[v]);
    }
  }

  lemma SettleKeepsSlots(p: Pool, q: Pool, j: nat, result: Result)
    requires SlotsOk(p) && j < |p.tasks| && p.results[j].None? && result.id == p.tasks[j]
    requires q.tasks == p.tasks && q.results == p.results[j := Some(result)] && q.written == p.written + [j]
    ensures SlotsOk(q)
  {
    forall a | 0 <= a < |p.written| ensures p.written[a] != j { assert p.written[a] in p.written; }
  }

  lemma SettleKeepsTasks(l: Limits, p: Pool, w: nat)
    requires WorkersOk(l, p) && TasksOk(p) && w < |p.workers| && p.workers[w].Returning?
    ensures TasksOk(Step(l, p, Settle(w)))
  {
    var q, j := Step(l, p, Settle(w)), p.workers[w].i;
    assert WorkerOk(l, p, p.workers[w]);
    forall i: nat | i < |p.tasks| ensures q.results[i].Some? || WorkedOn(q, i) <==> i < q.nextTask {
      if i != j && WorkedOn(p, i) {
        var v :| 0 <= v < |p.workers| && Busy(p.workers[v]) && p.workers[v].i == i;
        assert Busy(q.workers[v]) && q.workers[v].i == i;
      }
      if WorkedOn(q, i) {
        var v :| 0 <= v < |q.workers| && Busy(q.workers[v]) && q.workers[v].i == i;
        assert v != w && Busy(p.workers[v]) && p.workers[v].i == i;
      }
      if i == j { assert WorkedOn(p, j); }
    }
  }

  lemma SettleKeepsWorkers(l: Limits, p: Pool, w: nat)
    requires WorkersOk(l, p) && w < |p.workers| && p.workers[w].Returning?
    ensures WorkersOk(l, Step(l, p, Settle(w)))
  {
    var q := Step(l, p, Settle(w));
    forall v | 0 <= v < |q.workers| ensures WorkerOk(l, q, q.workers[v]) {
      assert WorkerOk(l, p, p.workers[v]) && WorkerOk(l, p, p.workers[w]);
      if v < w && Busy(p.workers[v]) { assert p.workers[v].i != p.workers[w].i; }
      if w < v && Busy(p.workers[v]) { assert p.workers[w].i != p.workers[v].i; }
    }
  }

  lemma SettleKeeps(l: Limits, p: Pool, w: nat)
    requires Inv(l, p) && w < |p.workers| && p.workers[w].Returning?
    ensures Inv(l, Step(l, p, Settle(w)))
  {
    assert WorkerOk(l, p, p.workers[w]);
    SettleKeepsSlots(p, Step(l, p, Settle(w)), p.workers[w].i, p.workers[w].result);
    SettleKeepsTasks(l, p, w);
    SettleKeepsWorkers(l, p, w);
  }

  lemma TakeKeeps(l: Limits, p: Pool, w: nat, aborted: bool, toolsMissing: bool)
    requires Inv(l, p) && w < |p.workers| && p.workers[w].Ready?
    ensures Inv(l, Step(l, p, Take(w, aborted, toolsMissing)))
  {
    var q := Step(l, p, Take(w, aborted, toolsMissing));
    if p.nextTask < |p.tasks| {
      assert p.results[p.nextTask].None?;
    }
    WorkersKept(l, p, q, w);
  }

  /** Ask, Answer, Read and Crash: a worker goes on with its task. */
  lemma GoOnKeeps(l: Limits, p: Pool, event: Event, w: nat)
    requires Inv(l, p) && w < |p.workers| && MidTask(p.workers[w])
    requires event.Ask? || event.Answer? || event.Read? || event.Crash?
    requires event.w == w
    ensures Inv(l, Step(l, p, event))
  {
    var q := Step(l, p, event);
    GoOnFrame(l, p, event, w);
    WorkersKept(l, p, q, w);
    SameTasksKept(p, q, w);
  }

  /** Only the worker itself changes, and stays with its task. */
  lemma GoOnFrame(l: Limits, p: Pool, event: Event, w: nat)
    requires BudgetsOk(l, p) && w < |p.workers| && MidTask(p.workers[w]) && WorkerOk(l, p, p.workers[w])
    requires event.Ask? || event.Answer? || event.Read? || event.Crash?
    requires event.w == w
    ensures var q := Step(l, p, event);
            && BudgetsOk(l, q) && q.tasks == p.tasks && q.results == p.results && q.nextTask == p.nextTask
            && q.written == p.written && |q.workers| == |p.workers|
            && (forall v :: 0 <= v < |p.workers| && v != w ==> q.workers[v] == p.workers[v])
            && Busy(q.workers[w]) && q.workers[w].i == p.workers[w].i && WorkerOk(l, q, q.workers[w])
  {
  }

  /** A worker that stays with its task leaves every task as it was. */
  lemma SameTasksKept(p: Pool, q: Pool, w: nat)
    requires TasksOk(p) && w < |p.workers| == |q.workers|
    requires q.tasks == p.tasks && q.results == p.results && q.nextTask == p.nextTask
    requires forall v :: 0 <= v < |p.workers| && v != w ==> q.workers[v] == p.workers[v]
    requires Busy(p.workers[w]) && Busy(q.workers[w]) && q.workers[w].i == p.workers[w].i
    ensures TasksOk(q)
  {
    forall i: nat | i < |p.tasks| ensures WorkedOn(q, i) <==> WorkedOn(p, i) {
      if v: nat :| v < |p.workers| && Busy(p.workers[v]) && p.workers[v].i == i {
        assert Busy(q.workers[v]) && q.workers[v].i == i;
      }
    }
  }

  lemma StepKeeps(l: Limits, p: Pool, event: Event)
    requires Inv(l, p)
    ensures Inv(l, Step(l, p, event))
  {
    match event
    case RootReserve(leaves) =>
      forall i: nat | i < |p.tasks| ensures WorkedOn(Step(l, p, event), i) <==> WorkedOn(p, i) {}
    case Settle(w) => if w < |p.workers| && p.workers[w].Returning? { SettleKeeps(l, p, w); }
    case Take(w, a, t) => if w < |p.workers| && p.workers[w].Ready? { TakeKeeps(l, p, w, a, t); }
    case Ask(w, _) => if w < |p.workers| && MidTask(p.workers[w]) { GoOnKeeps(l, p, event, w); }
    case Answer(w, _) => if w < |p.workers| && MidTask(p.workers[w]) { GoOnKeeps(l, p, event, w); }
    case Read(w, _) => if w < |p.workers| && MidTask(p.workers[w]) { GoOnKeeps(l, p, event, w); }
    case Crash(w) => if w < |p.workers| && MidTask(p.workers[w]) { GoOnKeeps(l, p, event, w); }
  }

  predicate WithinLimits(l: Limits, b: Batch) {
    b.modelCalls <= l.maxTotalModelCalls && b.toolLeaves <= l.maxToolLeaves
  }

  lemma StartKeeps(l: Limits, b: Batch)
    requires WithinLimits(l, b)
    ensures Inv(l, Start(l, b))
  {
    forall i: nat | i < |b.tasks| ensures !WorkedOn(Start(l, b), i) {}
  }

  /** Main result on budgets, slots and workers: they hold after any schedule whatever. */
  lemma {:induction false} EveryScheduleKeepsInvariant(l: Limits, b: Batch, schedule: seq<Event>)
    requires WithinLimits(l, b)
    ensures Inv(l, Run(l, Start(l, b), schedule))
    ensures |Run(l, Start(l, b), schedule).workers| == |Start(l, b).workers| <= l.maxConcurrentWorkers
    ensures Run(l, Start(l, b), schedule).tasks == b.tasks
  {
    WorkersAreBounded(b.concurrency, l.maxConcurrentWorkers, |b.tasks|);
    if schedule == [] {
      StartKeeps(l, b);
    } else {
      var n := |schedule| - 1;
      EveryScheduleKeepsInvariant(l, b, schedule[..n]);
      StepKeeps(l, Run(l, Start(l, b), schedule[..n]), schedule[n]);
      StepFrame(l, Run(l, Start(l, b), schedule[..n]), schedule[n]);
    }
  }

  lemma StepFrame(l: Limits, p: Pool, event: Event)
    ensures Step(l, p, event).tasks == p.tasks && |Step(l, p, event).workers| == |p.workers|
  {
  }

  predicate AllFinished(p: Pool) { forall w :: 0 <= w < |p.workers| ==> p.workers[w].Finished? }

  predicate AllTasksAnswered(p: Pool) {
    && |p.results| == |p.tasks| == |p.written|
    && forall i :: 0 <= i < |p.tasks| ==> p.results[i].Some? && p.results[i].value.id == p.tasks[i]
  }

  /** When all workers are done every task has exactly one answer, in its own place. */
  lemma AllAnswered(l: Limits, b: Batch, schedule: seq<Event>)
    requires WithinLimits(l, b) && l.maxConcurrentWorkers > 0
    requires AllFinished(Run(l, Start(l, b), schedule))
    ensures AllTasksAnswered(Run(l, Start(l, b), schedule)) && Run(l, Start(l, b), schedule).tasks == b.tasks
  {
    EveryScheduleKeepsInvariant(l, b, schedule);
    WorkersAreBounded(b.concurrency, l.maxConcurrentWorkers, |b.tasks|);
    FinishedPoolAnswered(l, Run(l, Start(l, b), schedule));
  }

  lemma FinishedPoolAnswered(l: Limits, p: Pool)
    requires Inv(l, p) && AllFinished(p) && (p.workers == [] ==> p.tasks == [])
    ensures AllTasksAnswered(p)
  {
    if p.workers != [] { assert WorkerOk(l, p, p.workers[0]); }
    forall i: nat | i < |p.tasks| ensures p.results[i].Some? { assert !WorkedOn(p, i); }
    WrittenCount(p.written, |p.tasks|);
  }

  /** The numbers below n. */
  ghost function Below(n: nat): (r: set<nat>)
    ensures |r| == n && forall i: nat :: i in r <==> i < n
  {
    if n == 0 then {} else Below(n - 1) + {n - 1}
  }

  /** Distinct numbers that are exactly those below n are n in number. */
  lemma WrittenCount(s: seq<nat>, n: nat)
    requires forall a, b :: 0 <= a < b < |s| ==> s[a] != s[b]
    requires forall i: nat :: i in s <==> i < n
    ensures |s| == n
  {
    DistinctCount(s, Below(n));
  }

  lemma {:induction false} DistinctCount(s: seq<nat>, below: set<nat>)
    requires forall a, b :: 0 <= a < b < |s| ==> s[a] != s[b]
    requires forall i: nat :: i in below <==> i in s
    ensures |s| == |below|
  {
    if s == [] {
      assert forall i: nat :: i !in below;
      assert below == {};
    } else {
      var n := |s| - 1;
      assert s == s[..n] + [s[n]];
      DistinctCount(s[..n], below - {s[n]});
    }
  }

  // ----- the pool comes to an end -----

  /** How many more atomic stretches a worker can take on its own. */
  function Left(l: Limits, w: Worker): nat {
    match w
    case Ready => 1
    case Finished => 0
    case Head(_, n, _, _) => if n <= l.maxWorkerIterations then 3 * (l.maxWorkerIterations - n) + 3 else 3
    case Thinking(_, n, _, _) => if n < l.maxWorkerIterations then 3 * (l.maxWorkerIterations - n) + 2 else 3
    case Reading(_, n, _, _, _) => if n < l.maxWorkerIterations then 3 * (l.maxWorkerIterations - n) + 1 else 3
    case Returning(_, _) => 2
  }

  function LeftAll(l: Limits, workers: seq<Worker>): nat {
    if workers == [] then 0 else LeftAll(l, workers[..|workers| - 1]) + Left(l, workers[|workers| - 1])
  }

  function Untaken(p: Pool): nat {
    if p.nextTask < |p.tasks| then |p.tasks| - p.nextTask else 0
  }

  function Work(l: Limits, p: Pool): nat {
    Untaken(p) * (3 * l.maxWorkerIterations + 3) + LeftAll(l, p.workers)
  }

  lemma {:induction false} LeftAllUpdate(l: Limits, workers: seq<Worker>, w: nat, x: Worker)
    requires w < |workers|
    ensures LeftAll(l, workers[w := x]) == LeftAll(l, workers) - Left(l, workers[w]) + Left(l, x)
  {
    var n := |workers| - 1;
    if w == n {
      assert workers[w := x][..n] == workers[..n];
    } else {
      assert workers[w := x][..n] == workers[..n][w := x];
      LeftAllUpdate(l, workers[..n], w, x);
    }
  }

  /** A worker that goes on with its task, or hands it in, has less left to do. */
  lemma GoOnUsesWork(l: Limits, p: Pool, event: Event)
    requires WorkersOk(l, p) && !event.RootReserve? && !event.Take? && Step(l, p, event) != p
    ensures var q := Step(l, p, event);
            event.w < |p.workers| && q.nextTask == p.nextTask && q.tasks == p.tasks
            && q.workers == p.workers[event.w := q.workers[event.w]]
            && Left(l, q.workers[event.w]) < Left(l, p.workers[event.w])
  {
    assert WorkerOk(l, p, p.workers[event.w]);
  }

  /** Every worker event that changes anything uses up work, so any schedule soon runs dry. */
  lemma StepUsesWork(l: Limits, p: Pool, event: Event)
    requires WorkersOk(l, p)
    ensures Work(l, Step(l, p, event)) <= Work(l, p)
    ensures !event.RootReserve? && Step(l, p, event) != p ==> Work(l, Step(l, p, event)) < Work(l, p)
  {
    var q := Step(l, p, event);
    if !event.RootReserve? && q != p {
      if event.Take? {
        TakeUsesWork(l, p, event);
      } else {
        GoOnUsesWork(l, p, event);
        LeftAllUpdate(l, p.workers, event.w, q.workers[event.w]);
      }
    }
  }

  lemma TakeUsesWork(l: Limits, p: Pool, event: Event)
    requires event.Take? && Step(l, p, event) != p
    ensures Work(l, Step(l, p, event)) < Work(l, p)
  {
    var q, k := Step(l, p, event), 3 * l.maxWorkerIterations + 3;
    LeftAllUpdate(l, p.workers, event.w, q.workers[event.w]);
    assert Left(l, q.workers[event.w]) <= if Untaken(p) > 0 then k else 0;
    if Untaken(p) > 0 {
      assert Untaken(q) == Untaken(p) - 1;
      OneFewer(Untaken(p), k);
    } else {
      assert Untaken(q) == 0;
    }
  }

  lemma OneFewer(n: nat, k: nat)
    requires n > 0
    ensures n * k == (n - 1) * k + k
  {
  }

  /** How many events of a schedule change something a worker does. */
  function Effective(l: Limits, p: Pool, schedule: seq<Event>): nat {
    if schedule == [] then 0 else
      var n := |schedule| - 1;
      var before := Run(l, p, schedule[..n]);
      Effective(l, p, schedule[..n]) +
      if !schedule[n].RootReserve? && Step(l, before, schedule[n]) != before then 1 else 0
  }

  /** No schedule gets more effective steps out of the pool than the work it starts with. */
  lemma {:induction false} PoolTerminates(l: Limits, b: Batch, schedule: seq<Event>)
    requires WithinLimits(l, b)
    ensures Effective(l, Start(l, b), schedule) + Work(l, Run(l, Start(l, b), schedule)) <= Work(l, Start(l, b))
  {
    if schedule != [] {
      var n, p := |schedule| - 1, Start(l, b);
      PoolTerminates(l, b, schedule[..n]);
      EveryScheduleKeepsInvariant(l, b, schedule[..n]);
      StepUsesWork(l, Run(l, p, schedule[..n]), schedule[n]);
    }
  }

  /** What a worker that is not finished can always do next. */
  function NextEvent(p: Pool, w: nat): Event
    requires w < |p.workers|
  {
    match p.workers[w]
    case Ready => Take(w, false, false)
    case Head(_, _, _, _) => Ask(w, false)
    case Thinking(_, _, _, _) => Answer(w, Unusable)
    case Reading(_, _, _, _, _) => Read(w, false)
    case Returning(_, _) => Settle(w)
    case Finished => Settle(w)
  }

  /** No worker can do anything any more. */
  ghost predicate Quiet(l: Limits, p: Pool) {
    forall event: Event :: !event.RootReserve? ==> Step(l, p, event) == p
  }

  /** The pool never gets stuck: it is quiet exactly when every worker is done. */
  lemma QuietIffFinished(l: Limits, p: Pool)
    requires Inv(l, p)
    ensures Quiet(l, p) <==> AllFinished(p)
  {
    forall w: nat | w < |p.workers| && !p.workers[w].Finished? ensures Step(l, p, NextEvent(p, w)) != p {
      NextEventWorks(l, p, w);
    }
  }

  lemma NextEventWorks(l: Limits, p: Pool, w: nat)
    requires WorkersOk(l, p) && w < |p.workers| && !p.workers[w].Finished?
    ensures !NextEvent(p, w).RootReserve? && Step(l, p, NextEvent(p, w)).workers[w] != p.workers[w]
  {
    assert WorkerOk(l, p, p.workers[w]);
  }

  lemma OneMoreEvent(l: Limits, b: Batch, schedule: seq<Event>) returns (event: Event)
    requires WithinLimits(l, b) && !AllFinished(Run(l, Start(l, b), schedule))
    ensures Work(l, Run(l, Start(l, b), schedule + [event])) < Work(l, Run(l, Start(l, b), schedule))
  {
    var p := Run(l, Start(l, b), schedule);
    EveryScheduleKeepsInvariant(l, b, schedule);
    var w: nat :| w < |p.workers| && !p.workers[w].Finished?;
    event := NextEvent(p, w);
    NextEventWorks(l, p, w);
    StepUsesWork(l, p, event);
    RunSnoc(l, Start(l, b), schedule, event);
  }

  lemma RunSnoc(l: Limits, p: Pool, schedule: seq<Event>, event: Event)
    ensures Run(l, p, schedule + [event]) == Step(l, Run(l, p, schedule), event)
  {
    assert (schedule + [event])[..|schedule|] == schedule;
  }

  predicate Done(l: Limits, b: Batch, schedule: seq<Event>) {
    AllFinished(Run(l, Start(l, b), schedule)) && AllTasksAnswered(Run(l, Start(l, b), schedule))
  }

  lemma {:induction false} FinishWithin(l: Limits, b: Batch, schedule: seq<Event>, bound: nat)
      returns (more: seq<Event>)
    requires WithinLimits(l, b) && l.maxConcurrentWorkers > 0
    requires Work(l, Run(l, Start(l, b), schedule)) <= bound
    ensures |more| <= bound && Done(l, b, schedule + more)
    decreases bound
  {
    if AllFinished(Run(l, Start(l, b), schedule)) {
      more := [];
      assert schedule + more == schedule;
      AllAnswered(l, b, schedule);
    } else {
      var event := OneMoreEvent(l, b, schedule);
      var rest := FinishWithin(l, b, schedule + [event], bound - 1);
      more := [event] + rest;
      Regroup(schedule, event, rest);
    }
  }

  lemma Regroup(schedule: seq<Event>, event: Event, rest: seq<Event>)
    ensures schedule + ([event] + rest) == schedule + [event] + rest
  {
  }

  /** However a batch has gone so far, it can be brought to its end, and then every task is answered. */
  lemma EveryScheduleCanFinish(l: Limits, b: Batch, schedule: seq<Event>) returns (more: seq<Event>)
    requires WithinLimits(l, b) && l.maxConcurrentWorkers > 0
    ensures Done(l, b, schedule + more) && |more| <= Work(l, Start(l, b))
  {
    PoolTerminates(l, b, schedule);
    more := FinishWithin(l, b, schedule, Work(l, Run(l, Start(l, b), schedule)));
  }

  // ----- bounding the aggregate -----

  /** An evidence payload by the length of its JSON text, or the notice that replaced it. */
  datatype Payload = Original(size: nat) | Omitted

  datatype TaskResult = TaskResult(id: string, status: Status, evidence: seq<Payload>, gaps: seq<string>)

  const LARGE := 128
  const NOTICE_SIZE := 78     // the omission notice as JSON text
  const OMITTED_GAP := "One evidence payload was omitted by the aggregate size limit"

  function Size(p: Payload): nat { if p.Omitted? then NOTICE_SIZE else p.size }

  function LargeIn(evidence: seq<Payload>): nat {
    if evidence == [] then 0 else
      LargeIn(evidence[..|evidence| - 1]) + if Size(evidence[|evidence| - 1]) >= LARGE then 1 else 0
  }

  function LargeCount(results: seq<TaskResult>): nat {
    if results == [] then 0 else LargeCount(results[..|results| - 1]) + LargeIn(results[|results| - 1].evidence)
  }

  lemma {:induction false} LargeInUpdate(evidence: seq<Payload>, j: nat)
    requires j < |evidence| && Size(evidence[j]) >= LARGE
    ensures LargeIn(evidence[j := Omitted]) + 1 == LargeIn(evidence)
  {
    var n := |evidence| - 1;
    if j == n {
      assert evidence[j := Omitted][..n] == evidence[..n];
    } else {
      assert evidence[j := Omitted][..n] == evidence[..n][j := Omitted];
      LargeInUpdate(evidence[..n], j);
    }
  }

  lemma {:induction false} LargeCountUpdate(results: seq<TaskResult>, i: nat, r: TaskResult)
    requires i < |results|
    ensures LargeCount(results[i := r]) == LargeCount(results) - LargeIn(results[i].evidence) + LargeIn(r.evidence)
  {
    var n := |results| - 1;
    if i == n {
      assert results[i := r][..n] == results[..n];
    } else {
      assert results[i := r][..n] == results[..n][i := r];
      LargeCountUpdate(results[..n], i, r);
    }
  }

  /** A task result with one payload left out. */
  function Reduced(r: TaskResult, j: nat): TaskResult
    requires j < |r.evidence|
  {
    TaskResult(r.id, if r.status == Failed then Failed else Partial, r.evidence[j := Omitted], r.gaps + [OMITTED_GAP])
  }

  /** One payload gives way to the notice, the task is complete no longer, and one gap says so; the rest stays. */
  lemma ReducedLeaves(r: TaskResult, j: nat)
    requires j < |r.evidence|
    ensures var q := Reduced(r, j);
            && q.id == r.id && q.status != Completed && (q.status == Failed <==> r.status == Failed)
            && |q.evidence| == |r.evidence| && q.evidence[j].Omitted?
            && (forall k :: 0 <= k < |r.evidence| && k != j ==> q.evidence[k] == r.evidence[k])
            && q.gaps == r.gaps + ["One evidence payload was omitted by the aggregate size limit"]
  {
  }

  predicate IsPayload(results: seq<TaskResult>, i: int, j: int) {
    0 <= i < |results| && 0 <= j < |results[i].evidence|
  }

  predicate Earlier(x: int, y: int, i: int, j: int) { x < i || (x == i && y < j) }

  /** The greedy choice: the first of the largest payloads. */
  ghost predicate IsLargest(results: seq<TaskResult>, i: int, j: int) {
    && IsPayload(results, i, j)
    && (forall x, y :: IsPayload(results, x, y) ==> Size(results[x].evidence[y]) <= Size(results[i].evidence[j]))
    && (forall x, y :: IsPayload(results, x, y) && Earlier(x, y, i, j) ==>
          Size(results[x].evidence[y]) < Size(results[i].evidence[j]))
  }

  /** Among the payloads before (a, b). */
  ghost predicate LargestBefore(results: seq<TaskResult>, a: int, b: int, i: int, j: int) {
    && IsPayload(results, i, j)
    && (forall x, y :: IsPayload(results, x, y) && Earlier(x, y, a, b) ==>
          Size(results[x].evidence[y]) <= Size(results[i].evidence[j]))
    && (forall x, y :: IsPayload(results, x, y) && Earlier(x, y, i, j) ==>
          Size(results[x].evidence[y]) < Size(results[i].evidence[j]))
  }

  method FindLargest(results: seq<TaskResult>) returns (found: bool, i: nat, j: nat)
    ensures found ==> IsLargest(results, i, j)
    ensures !found ==> forall x, y :: !IsPayload(results, x, y)
  {
    found, i, j := false, 0, 0;
    for a := 0 to |results|
      invariant found ==> LargestBefore(results, a, 0, i, j) && i < a
      invariant !found ==> forall x, y :: IsPayload(results, x, y) ==> x >= a
    {
      for b := 0 to |results[a].evidence|
        invariant found ==> LargestBefore(results, a, b, i, j) && Earlier(i, j, a, b)
        invariant !found ==> forall x, y :: IsPayload(results, x, y) ==> !Earlier(x, y, a, b)
      {
        if !found || Size(results[a].evidence[b]) > Size(results[i].evidence[j]) {
          found, i, j := true, a, b;
        }
      }
    }
  }

  /** One round: the text is too long, and the first of the largest payloads, which is large, is left out. */
  ghost predicate Bounds(stringify: seq<TaskResult> -> nat, max: nat, now: seq<TaskResult>, next: seq<TaskResult>) {
    stringify(now) > max && exists i, j :: LeavesOut(now, next, i, j)
  }

  ghost predicate LeavesOut(now: seq<TaskResult>, next: seq<TaskResult>, i: int, j: int) {
    IsLargest(now, i, j) && Size(now[i].evidence[j]) >= 128 && next == now[i := Reduced(now[i], j)]
  }

  /** What bounding may have done to a task: payloads at least as large as `floor` left out, one gap noted for each. */
  ghost predicate Shortened(before: TaskResult, after: TaskResult, floor: nat) {
    && after.id == before.id && |after.evidence| == |before.evidence|
    && (forall j :: 0 <= j < |before.evidence| ==>
          after.evidence[j] == before.evidence[j]
          || (after.evidence[j] == Omitted && Size(before.evidence[j]) >= floor))
    && (after.evidence == before.evidence ==> after == before)
    && (after.status == before.status || (after.status == Partial && before.status != Failed))
    && before.gaps <= after.gaps
  }

  lemma StillShortened(x: TaskResult, y: TaskResult, floor: nat, size: nat)
    requires Shortened(x, y, floor) && (y == x || size <= floor)
    ensures Shortened(x, y, size)
    ensures forall j :: 0 <= j < |y.evidence| && Size(y.evidence[j]) == size && size >= LARGE ==>
        Shortened(x, Reduced(y, j), size)
  {
    forall j | 0 <= j < |y.evidence| && Size(y.evidence[j]) == size && size >= LARGE
      ensures Shortened(x, Reduced(y, j), size)
    {
      assert y.evidence[j] == x.evidence[j];
      assert Reduced(y, j).evidence[j] != x.evidence[j];
    }
  }

  ghost predicate AllShortened(before: seq<TaskResult>, after: seq<TaskResult>, floor: nat) {
    |before| == |after| && forall i :: 0 <= i < |after| ==> Shortened(before[i], after[i], floor)
  }

  ghost predicate AllWithin(results: seq<TaskResult>, most: nat) {
    forall i, j :: IsPayload(results, i, j) ==> Size(results[i].evidence[j]) <= most
  }

  /** Leaving out a largest payload. */
  lemma ReduceLargest(start: seq<TaskResult>, now: seq<TaskResult>, floor: nat, i: nat, j: nat)
    requires AllShortened(start, now, floor) && (now == start || AllWithin(now, floor))
    requires IsPayload(now, i, j) && AllWithin(now, Size(now[i].evidence[j])) && Size(now[i].evidence[j]) >= LARGE
    ensures var size, next := Size(now[i].evidence[j]), now[i := Reduced(now[i], j)];
            AllShortened(start, next, size) && AllWithin(next, size) && LargeCount(next) < LargeCount(now)
  {
    var size, next := Size(now[i].evidence[j]), now[i := Reduced(now[i], j)];
    forall k | 0 <= k < |now| ensures Shortened(start[k], next[k], size) {
      StillShortened(start[k], now[k], floor, size);
    }
    forall x, y | IsPayload(next, x, y) ensures Size(next[x].evidence[y]) <= size { assert IsPayload(now, x, y); }
    LargeInUpdate(now[i].evidence, j);
    LargeCountUpdate(now, i, Reduced(now[i], j));
  }

  /** The states from start to end, one round apart. */
  ghost predicate Rounds(stringify: seq<TaskResult> -> nat, max: nat, rounds: seq<seq<TaskResult>>,
                         start: seq<TaskResult>, end: seq<TaskResult>) {
    && |rounds| > 0 && rounds[0] == start && rounds[|rounds| - 1] == end
    && forall k :: 0 <= k < |rounds| - 1 ==> Bounds(stringify, max, rounds[k], rounds[k + 1])
  }

  lemma OneMoreRound(stringify: seq<TaskResult> -> nat, max: nat, rounds: seq<seq<TaskResult>>,
                     start: seq<TaskResult>, now: seq<TaskResult>, next: seq<TaskResult>)
    requires Rounds(stringify, max, rounds, start, now) && Bounds(stringify, max, now, next)
    ensures Rounds(stringify, max, rounds + [next], start, next)
  {
  }

  /**
   * Overwrites the largest payloads, one round at a time, until the text fits or nothing large is left; `floor` is
   * the last size left out.
   */
  method BoundAggregate(results: array<TaskResult>, stringify: seq<TaskResult> -> nat, maxAggregateChars: nat)
      returns (ghost floor: nat, ghost rounds: seq<seq<TaskResult>>)
    modifies results
    ensures stringify(results[..]) <= maxAggregateChars || AllWithin(results[..], 127)
    ensures AllShortened(old(results[..]), results[..], floor) && floor >= 128
    ensures results[..] != old(results[..]) ==> AllWithin(results[..], floor)
    ensures Rounds(stringify, maxAggregateChars, rounds, old(results[..]), results[..])
  {
    floor := LARGE;
    rounds := [results[..]];
    while stringify(results[..]) > maxAggregateChars
      invariant floor >= LARGE && AllShortened(old(results[..]), results[..], floor)
      invariant results[..] == old(results[..]) || AllWithin(results[..], floor)
      invariant Rounds(stringify, maxAggregateChars, rounds, old(results[..]), results[..])
      decreases LargeCount(results[..])
    {
      ghost var now := results[..];
      var found, i, j := FindLargest(results[..]);
      if !found || Size(results[i].evidence[j]) < LARGE { break; }
      ReduceLargest(old(results[..]), now, floor, i, j);
      floor := Size(now[i].evidence[j]);
      results[i] := Reduced(results[i], j);
      assert results[..] == now[i := Reduced(now[i], j)];
      assert LeavesOut(now, results[..], i, j);
      OneMoreRound(stringify, maxAggregateChars, rounds, old(results[..]), now, results[..]);
      rounds := rounds + [results[..]];
    }
  }

  /** JSON text length where it matters: the payloads, the status word, and the gap notes with their commas. */
  function TextLength(r: TaskResult): nat {
    PayloadLength(r.evidence) + GapLength(r.gaps)
    + if r.status == Completed then 9 else if r.status == Partial then 7 else 6
  }

  function PayloadLength(evidence: seq<Payload>): nat {
    if evidence == [] then 0 else PayloadLength(evidence[..|evidence| - 1]) + Size(evidence[|evidence| - 1])
  }

  function GapLength(gaps: seq<string>): nat {
    if gaps == [] then 0 else GapLength(gaps[..|gaps| - 1]) + |gaps[|gaps| - 1]| + 2 + if |gaps| > 1 then 1 else 0
  }

  lemma {:induction false} PayloadLengthUpdate(evidence: seq<Payload>, j: nat)
    requires j < |evidence|
    ensures PayloadLength(evidence[j := Omitted]) + Size(evidence[j]) == PayloadLength(evidence) + NOTICE_SIZE
  {
    var n := |evidence| - 1;
    if j == n {
      assert evidence[j := Omitted][..n] == evidence[..n];
    } else {
      assert evidence[j := Omitted][..n] == evidence[..n][j := Omitted];
      PayloadLengthUpdate(evidence[..n], j);
    }
  }

  /** What the note about an omission adds: its text, two quotes, and a comma after earlier notes. */
  function NoteCost(r: TaskResult): nat { |OMITTED_GAP| + 2 + if r.gaps == [] then 0 else 1 }

  /** What the status word saves: "completed" becomes "partial". */
  function StatusSaving(r: TaskResult): nat { if r.status == Completed then 2 else 0 }

  /** Leaving a payload out makes the text longer exactly when the payload is smaller than what replaces it. */
  lemma StepGrowsIff(r: TaskResult, j: nat)
    requires j < |r.evidence|
    ensures TextLength(Reduced(r, j)) > TextLength(r)
            <==> Size(r.evidence[j]) + StatusSaving(r) < NOTICE_SIZE + NoteCost(r)
  {
    PayloadLengthUpdate(r.evidence, j);
    assert (r.gaps + [OMITTED_GAP])[..|r.gaps|] == r.gaps;
  }

  /** Among the payloads the loop leaves out, those below 141 at most make the text longer: length is no measure. */
  lemma LargeStepsThatGrow(r: TaskResult, j: nat)
    requires j < |r.evidence| && Size(r.evidence[j]) >= LARGE
    ensures TextLength(Reduced(r, j)) > TextLength(r)
            <==> Size(r.evidence[j]) < 140 - StatusSaving(r) + if r.gaps == [] then 0 else 1
  {
    StepGrowsIff(r, j);
    assert |OMITTED_GAP| == 60;
  }

  /** A payload of just 128 characters in an untouched result. */
  lemma StepCanGrow(r: TaskResult)
    requires r.evidence == [Original(LARGE)] && r.status == Completed && r.gaps == []
    ensures TextLength(Reduced(r, 0)) > TextLength(r)
  {
    LargeStepsThatGrow(r, 0);
  }

  // ----- the same loop on a local parallel batch -----

  const BATCH_LARGE := 513

  function LargeOutputs(sizes: seq<nat>): nat {
    if sizes == [] then 0 else LargeOutputs(sizes[..|sizes| - 1]) + if sizes[|sizes| - 1] >= BATCH_LARGE then 1 else 0
  }

  lemma {:induction false} LargeOutputsUpdate(sizes: seq<nat>, i: nat, small: nat)
    requires i < |sizes| && sizes[i] >= BATCH_LARGE > small
    ensures LargeOutputs(sizes[i := small]) + 1 == LargeOutputs(sizes)
  {
    var n := |sizes| - 1;
    if i == n {
      assert sizes[i := small][..n] == sizes[..n];
    } else {
      assert sizes[i := small][..n] == sizes[..n][i := small];
      LargeOutputsUpdate(sizes[..n], i, small);
    }
  }

  /** The first of the outputs that are largest, above 512. */
  predicate IsLargestOutput(sizes: seq<nat>, i: int) {
    && 0 <= i < |sizes| && sizes[i] >= BATCH_LARGE
    && (forall k :: 0 <= k < |sizes| ==> sizes[k] <= sizes[i])
    && (forall k :: 0 <= k < i ==> sizes[k] < sizes[i])
  }

  ghost predicate BatchBounds(stringify: seq<nat> -> nat, max: nat, refusals: seq<nat>, now: seq<nat>, next: seq<nat>) {
    && stringify(now) > max && |refusals| == |now|
    && exists i :: IsLargestOutput(now, i) && next == now[i := refusals[i]]
  }

  /** Outputs by size; each tool's fixed refusal is no longer than 512. */
  method BoundBatchOutputs(sizes: array<nat>, refusals: seq<nat>, stringify: seq<nat> -> nat, maxChars: nat)
      returns (ghost rounds: seq<seq<nat>>)
    requires |refusals| == sizes.Length && forall i :: 0 <= i < |refusals| ==> refusals[i] < BATCH_LARGE
    modifies sizes
    ensures stringify(sizes[..]) <= maxChars || forall i :: 0 <= i < sizes.Length ==> sizes[i] < BATCH_LARGE
    ensures |rounds| > 0 && rounds[0] == old(sizes[..]) && rounds[|rounds| - 1] == sizes[..]
    ensures forall k :: 0 <= k < |rounds| - 1 ==> BatchBounds(stringify, maxChars, refusals, rounds[k], rounds[k + 1])
  {
    rounds := [sizes[..]];
    while stringify(sizes[..]) > maxChars
      invariant |rounds| > 0 && rounds[0] == old(sizes[..]) && rounds[|rounds| - 1] == sizes[..]
      invariant forall k :: 0 <= k < |rounds| - 1 ==>
          BatchBounds(stringify, maxChars, refusals, rounds[k], rounds[k + 1])
      decreases LargeOutputs(sizes[..])
    {
      var largest := FindLargestOutput(sizes[..]);
      if largest < 0 { break; }
      LargeOutputsUpdate(sizes[..], largest, refusals[largest]);
      ghost var now := sizes[..];
      sizes[largest] := refusals[largest];
      assert sizes[..] == now[largest := refusals[largest]];
      rounds := rounds + [sizes[..]];
    }
  }

  method FindLargestOutput(sizes: seq<nat>) returns (largest: int)
    ensures largest >= 0 ==> IsLargestOutput(sizes, largest)
    ensures largest < 0 ==> forall k :: 0 <= k < |sizes| ==> sizes[k] < BATCH_LARGE
  {
    largest := -1;
    for i := 0 to |sizes|
      invariant -1 <= largest < i
      invariant largest >= 0 ==> sizes[largest] >= BATCH_LARGE && forall k :: 0 <= k < i ==> sizes[k] <= sizes[largest]
      invariant forall k :: 0 <= k < largest ==> sizes[k] < sizes[largest]
      invariant largest < 0 ==> forall k :: 0 <= k < i ==> sizes[k] < BATCH_LARGE
    {
      if sizes[i] > 512 && (largest < 0 || sizes[i] > sizes[largest]) { largest := i; }
    }
  }
}
