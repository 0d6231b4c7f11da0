/**
 The task dispatcher as a transition system: submitters, workers and Stop take
 atomic steps on a buffered queue, a wait group and a stop flag, in any order.
 */
module Tasks {
  import opened Common

  /** Task data; None is Go's nil. */
  type Data = Option<int>

  /** One call of the task function. */
  datatype Attempt = Attempt(input: Data, output: Data, failed: bool)

  /** The one callback a task's owner is to receive. */
  datatype Settlement = Succeeded(data: Data) | Failed(data: Data)

  datatype Status = Unsubmitted | Submitted | Rejected

  datatype Task = Task(
    retries: int,
    initial: Data,
    status: Status,
    numTries: int,
    taskData: Data,
    attempts: seq<Attempt>,
    settled: seq<Settlement>)

  function NewTask(retries: int, data: Data): Task {
    Task(retries, data, Unsubmitted, retries, data, [], [])
  }

  /** Where a worker is in its loop; Resending is inside dispatch for a retry. */
  datatype Worker = Idle | Running(t: nat) | Resending(t: nat) | Finishing | Exited

  datatype Stopper = NotStopped | Waiting | Released | Closed

  datatype Dispatcher = Dispatcher(
    capacity: nat,
    queued: int,
    queue: seq<nat>,
    senders: seq<nat>,
    workers: seq<Worker>,
    tasks: seq<Task>,
    stopper: Stopper,
    panicked: bool)
  {
    predicate StopFlag() {
      stopper != NotStopped
    }
  }

  function Start(capacity: nat, numWorkers: nat, tasks: seq<Task>): Dispatcher {
    Dispatcher(capacity, 0, [], [], seq(numWorkers, _ => Idle), tasks, NotStopped, false)
  }

  datatype Action =
    | Submit(t: nat)
    | Enqueue(k: nat)
    | HandOver(k: nat, w: nat)
    | GiveUp(k: nat)
    | Take(w: nat)
    | Succeed(w: nat, output: Data)
    | Fail(w: nat, output: Data)
    | Requeue(w: nat)
    | RehandOver(w: nat, v: nat)
    | RetryGivesUp(w: nat)
    | Finish(w: nat)
    | Exit(w: nat)
    | StopCalled
    | StopReleased
    | StopCloses

  predicate IsWorker(s: Dispatcher, w: nat, pc: Worker) {
    w < |s.workers| && s.workers[w] == pc
  }

  predicate SomeRunning(s: Dispatcher) {
    exists w | 0 <= w < |s.workers| :: s.workers[w].Running?
  }

  predicate SomeResending(s: Dispatcher) {
    exists w | 0 <= w < |s.workers| :: s.workers[w].Resending?
  }

  /**
   When a step can be taken. Submissions from outside stop once Stop is called;
   a task function that is running may still submit.
   */
  predicate Enabled(s: Dispatcher, a: Action) {
    match a
    case Submit(t) => t < |s.tasks| && s.tasks[t].status == Unsubmitted && (s.stopper == NotStopped || SomeRunning(s))
    case Enqueue(k) => k < |s.senders| && |s.queue| < s.capacity
    case HandOver(k, w) => k < |s.senders| && IsWorker(s, w, Idle) && s.queue == []
    case GiveUp(k) => k < |s.senders| && s.senders[k] < |s.tasks|
    case Take(w) => IsWorker(s, w, Idle) && s.queue != []
    case Succeed(w, _) => w < |s.workers| && s.workers[w].Running? && s.workers[w].t < |s.tasks|
    case Fail(w, _) => w < |s.workers| && s.workers[w].Running? && s.workers[w].t < |s.tasks|
    case Requeue(w) => w < |s.workers| && s.workers[w].Resending? && |s.queue| < s.capacity
    case RehandOver(w, v) => w < |s.workers| && s.workers[w].Resending? && IsWorker(s, v, Idle) && s.queue == []
    case RetryGivesUp(w) => w < |s.workers| && s.workers[w].Resending? && s.workers[w].t < |s.tasks|
    case Finish(w) => IsWorker(s, w, Finishing)
    case Exit(w) => IsWorker(s, w, Idle) && s.stopper == Closed && s.queue == []
    case StopCalled => s.stopper == NotStopped
    case StopReleased => s.stopper == Waiting && s.queued == 0
    case StopCloses => s.stopper == Released
  }

  /** WaitGroup.Done panics when the counter would become negative. */
  function DecrementQueued(s: Dispatcher): Dispatcher {
    s.(queued := s.queued - 1, panicked := s.panicked || s.queued <= 0)
  }

  function Attempted(task: Task, output: Data, failed: bool): Task {
    task.(attempts := task.attempts + [Attempt(task.taskData, output, failed)])
  }

  function Settle(task: Task, how: Settlement): Task {
    task.(settled := task.settled + [how])
  }

  function Next(s: Dispatcher, a: Action): Dispatcher
    requires Enabled(s, a)
  {
    match a
    case Submit(t) =>
      s.(queued := s.queued + 1, senders := s.senders + [t], tasks := s.tasks[t := s.tasks[t].(status := Submitted)])
    case Enqueue(k) =>
      s.(senders := Without(s.senders, k), queue := s.queue + [s.senders[k]])
    case HandOver(k, w) =>
      s.(senders := Without(s.senders, k), workers := s.workers[w := Running(s.senders[k])])
    case GiveUp(k) =>
      var t := s.senders[k];
      DecrementQueued(s.(senders := Without(s.senders, k), tasks := s.tasks[t := s.tasks[t].(status := Rejected)]))
    case Take(w) =>
      s.(queue := s.queue[1..], workers := s.workers[w := Running(s.queue[0])])
    case Succeed(w, output) =>
      var t := s.workers[w].t;
      s.(workers := s.workers[w := Finishing],
         tasks := s.tasks[t := Settle(Attempted(s.tasks[t], output, false), Succeeded(output))])
    case Fail(w, output) =>
      var t := s.workers[w].t;
      var task := Attempted(s.tasks[t], output, true);
      if s.StopFlag() || task.numTries == 0 || output.None? then
        s.(workers := s.workers[w := Finishing], tasks := s.tasks[t := Settle(task, Failed(output))])
      else
        s.(queued := s.queued + 1, workers := s.workers[w := Resending(t)],
           tasks := s.tasks[t := task.(numTries := task.numTries - 1, taskData := output)])
    case Requeue(w) =>
      s.(queue := s.queue + [s.workers[w].t], workers := s.workers[w := Finishing])
    case RehandOver(w, v) =>
      s.(workers := s.workers[v := Running(s.workers[w].t)][w := Finishing])
    case RetryGivesUp(w) =>
      var t := s.workers[w].t;
      DecrementQueued(s.(workers := s.workers[w := Finishing],
                         tasks := s.tasks[t := Settle(s.tasks[t], Failed(s.tasks[t].taskData))]))
    case Finish(w) =>
      DecrementQueued(s.(workers := s.workers[w := Idle]))
    case Exit(w) => s.(workers := s.workers[w := Exited])
    case StopCalled => s.(stopper := Waiting)
    case StopReleased => s.(stopper := Released)
    case StopCloses =>
      s.(stopper := Closed, panicked := s.panicked || s.senders != [] || SomeResending(s))
  }

  // ----- counting

  /** A worker holds its task from taking it to Done. */
  function Held(w: Worker): nat {
    if w.Idle? || w.Exited? then 0 else 1
  }

  /** What a worker adds to the wait group: its task, and the retry it is trying to enqueue. */
  function Owed(w: Worker): nat {
    Held(w) + if w.Resending? then 1 else 0
  }

  function OwedAll(ws: seq<Worker>): nat {
    if ws == [] then 0 else Owed(ws[0]) + OwedAll(ws[1..])
  }

  predicate Carries(w: Worker, t: nat) {
    w == Running(t) || w == Resending(t)
  }

  function CarriedBy(ws: seq<Worker>, t: nat): nat {
    if ws == [] then 0 else Bool(Carries(ws[0], t)) + CarriedBy(ws[1..], t)
  }

  function Bool(b: bool): nat {
    if b then 1 else 0
  }

  lemma {:induction false} OwedUpdate(ws: seq<Worker>, w: nat, pc: Worker)
    requires w < |ws|
    ensures OwedAll(ws[w := pc]) == OwedAll(ws) - Owed(ws[w]) + Owed(pc)
    ensures Owed(ws[w]) <= OwedAll(ws)
    decreases |ws|
  {
    if w == 0 {
      assert ws[w := pc][1..] == ws[1..];
    } else {
      OwedUpdate(ws[1..], w - 1, pc);
      assert ws[w := pc][1..] == ws[1..][w - 1 := pc];
    }
  }

  lemma {:induction false} CarriedUpdate(ws: seq<Worker>, w: nat, pc: Worker, t: nat)
    requires w < |ws|
    ensures CarriedBy(ws[w := pc], t) == CarriedBy(ws, t) - Bool(Carries(ws[w], t)) + Bool(Carries(pc, t))
    ensures Bool(Carries(ws[w], t)) <= CarriedBy(ws, t)
    decreases |ws|
  {
    if w == 0 {
      assert ws[w := pc][1..] == ws[1..];
    } else {
      CarriedUpdate(ws[1..], w - 1, pc, t);
      assert ws[w := pc][1..] == ws[1..][w - 1 := pc];
    }
  }

  lemma {:induction false} OwedZero(ws: seq<Worker>, w: nat)
    requires OwedAll(ws) == 0 && w < |ws|
    ensures Owed(ws[w]) == 0
    decreases |ws|
  {
    if w > 0 {
      OwedZero(ws[1..], w - 1);
    }
  }

  function Count(xs: seq<nat>, t: nat): nat {
    if xs == [] then 0 else Bool(xs[0] == t) + Count(xs[1..], t)
  }

  lemma {:induction false} CountAppend(xs: seq<nat>, x: nat, t: nat)
    ensures Count(xs + [x], t) == Count(xs, t) + Bool(x == t)
    decreases |xs|
  {
    if xs == [] {
      assert (xs + [x])[1..] == [];
    } else {
      assert (xs + [x])[1..] == xs[1..] + [x];
      CountAppend(xs[1..], x, t);
    }
  }

  lemma {:induction false} CountWithout(xs: seq<nat>, k: nat, t: nat)
    requires k < |xs|
    ensures Count(Without(xs, k), t) == Count(xs, t) - Bool(xs[k] == t)
    decreases |xs|
  {
    if k == 0 {
      assert Without(xs, 0) == xs[1..];
    } else {
      assert Without(xs, k)[1..] == Without(xs[1..], k - 1);
      CountWithout(xs[1..], k - 1, t);
    }
  }

  // ----- the invariant

  /** How often a task is still to be run: being sent, queued, or carried by a worker. */
  ghost function Live(s: Dispatcher, t: nat): nat {
    Count(s.senders, t) + Count(s.queue, t) + CarriedBy(s.workers, t)
  }

  /** The wait group counts every dispatch still sending, every queued task and every task a worker holds. */
  ghost predicate Counted(s: Dispatcher) {
    s.queued == |s.senders| + |s.queue| + OwedAll(s.workers)
  }

  /** A submitted task is in exactly one place: live, settled or rejected. */
  ghost predicate LocatedAt(s: Dispatcher, t: nat) {
    if t < |s.tasks| then
      Live(s, t) + |s.tasks[t].settled| + Bool(s.tasks[t].status == Rejected) == Bool(s.tasks[t].status != Unsubmitted)
    else Live(s, t) == 0
  }

  /** Every attempt but the last failed and handed its output to the next one. */
  ghost predicate Chained(initial: Data, attempts: seq<Attempt>) {
    var n := |attempts|;
    if n == 0 then true
    else if n == 1 then attempts[0].input == initial
    else
      && attempts[n - 2].failed && attempts[n - 2].output.Some?
      && attempts[n - 1].input == attempts[n - 2].output
      && Chained(initial, attempts[..n - 1])
  }

  ghost predicate TaskOk(task: Task) {
    && Chained(task.initial, task.attempts)
    && (task.retries >= 0 ==> task.numTries >= 0)
    && if task.settled == [] then
         && task.numTries == task.retries - |task.attempts|
         && task.taskData == (if task.attempts == [] then task.initial else task.attempts[|task.attempts| - 1].output)
         && (task.attempts != [] ==> var last := task.attempts[|task.attempts| - 1]; last.failed && last.output.Some?)
       else
         && |task.settled| == 1 && task.attempts != []
         && |task.attempts| <= task.retries - task.numTries + 1
         && var last := task.attempts[|task.attempts| - 1];
         task.settled[0] == (if last.failed then Failed(last.output) else Succeeded(last.output))
  }

  ghost predicate WorkerOk(s: Dispatcher, w: Worker) {
    && (w.Exited? ==> s.stopper == Closed)
    && (w.Resending? ==> w.t < |s.tasks| && s.tasks[w.t].attempts != [])
  }

  ghost predicate Inv(s: Dispatcher) {
    && !s.panicked
    && Counted(s)
    && (forall t: nat :: LocatedAt(s, t))
    && (forall t | 0 <= t < |s.tasks| :: TaskOk(s.tasks[t]))
    && (s.stopper == Released || s.stopper == Closed ==> s.queued == 0)
    && (forall w | 0 <= w < |s.workers| :: WorkerOk(s, s.workers[w]))
  }

  lemma {:induction false} StartInv(capacity: nat, numWorkers: nat, tasks: seq<Task>)
    requires forall task | task in tasks :: task == NewTask(task.retries, task.initial)
    ensures Inv(Start(capacity, numWorkers, tasks))
  {
    var s := Start(capacity, numWorkers, tasks);
    IdleWorkers(s.workers);
    forall t | 0 <= t < |tasks| ensures TaskOk(tasks[t]) && tasks[t].status == Unsubmitted && tasks[t].settled == [] {
      assert tasks[t] in tasks;
    }
  }

  lemma {:induction false} IdleWorkers(ws: seq<Worker>)
    requires forall w | 0 <= w < |ws| :: ws[w] == Idle
    ensures OwedAll(ws) == 0 && forall t :: CarriedBy(ws, t) == 0
    decreases |ws|
  {
    if ws != [] {
      IdleWorkers(ws[1..]);
    }
  }

  // ----- every step keeps the invariant

  /** The worker whose place a step changes. */
  function Actor(a: Action): nat {
    match a
    case HandOver(_, w) => w
    case Take(w) => w
    case Succeed(w, _) => w
    case Fail(w, _) => w
    case Requeue(w) => w
    case RehandOver(w, _) => w
    case RetryGivesUp(w) => w
    case Finish(w) => w
    case Exit(w) => w
    case _ => 0
  }

  lemma {:induction false} SomeOwed(s: Dispatcher)
    requires SomeRunning(s) || SomeResending(s)
    ensures OwedAll(s.workers) > 0
  {
    if OwedAll(s.workers) == 0 {
      forall w | 0 <= w < |s.workers| ensures Owed(s.workers[w]) == 0 {
        OwedZero(s.workers, w);
      }
    }
  }

  /** Steps that move a worker on. */
  predicate MovesWorker(a: Action) {
    || a.HandOver? || a.Take? || a.Succeed? || a.Fail? || a.Requeue? || a.RehandOver?
    || a.RetryGivesUp? || a.Finish? || a.Exit?
  }

  /** Where a step leaves its worker. */
  function WorkerAfter(s: Dispatcher, a: Action): Worker
    requires Enabled(s, a) && MovesWorker(a)
  {
    match a
    case HandOver(k, _) => Running(s.senders[k])
    case Take(_) => Running(s.queue[0])
    case Fail(w, _) => if LastFailure(s, a) then Finishing else Resending(s.workers[w].t)
    case Finish(_) => Idle
    case Exit(_) => Exited
    case _ => Finishing
  }

  function WorkersAfter(s: Dispatcher, a: Action): seq<Worker>
    requires Enabled(s, a)
  {
    if a.RehandOver? then s.workers[a.v := Running(s.workers[a.w].t)][a.w := Finishing]
    else if MovesWorker(a) then s.workers[Actor(a) := WorkerAfter(s, a)]
    else s.workers
  }

  lemma {:induction false} WorkersChange(s: Dispatcher, a: Action)
    requires Enabled(s, a)
    ensures Next(s, a).workers == WorkersAfter(s, a)
  {
  }

  lemma {:induction false} OwedChange(s: Dispatcher, a: Action)
    requires Enabled(s, a)
    ensures OwedAll(WorkersAfter(s, a))
         == OwedAll(s.workers) + (if a.HandOver? || a.Take? || (a.Fail? && !LastFailure(s, a)) then 1
                                  else if a.Requeue? || a.RetryGivesUp? || a.Finish? then -1
                                  else 0)
  {
    if a.RehandOver? {
      OwedUpdate(s.workers, a.v, Running(s.workers[a.w].t));
      OwedUpdate(s.workers[a.v := Running(s.workers[a.w].t)], a.w, Finishing);
    } else if MovesWorker(a) {
      OwedUpdate(s.workers, Actor(a), WorkerAfter(s, a));
    }
  }

  lemma {:induction false} CountKept(s: Dispatcher, a: Action)
    requires Inv(s) && Enabled(s, a)
    ensures Counted(Next(s, a)) && !Next(s, a).panicked
    ensures Next(s, a).stopper == Released || Next(s, a).stopper == Closed ==> Next(s, a).queued == 0
  {
    WorkersChange(s, a);
    OwedChange(s, a);
    if SomeRunning(s) || SomeResending(s) {
      SomeOwed(s);
    }
    if a.Finish? {
      OwedUpdate(s.workers, a.w, Idle);
    }
  }

  /** The task a step concerns. */
  function Subject(s: Dispatcher, a: Action): nat
    requires Enabled(s, a)
  {
    match a
    case Submit(t) => t
    case Enqueue(k) => s.senders[k]
    case HandOver(k, _) => s.senders[k]
    case GiveUp(k) => s.senders[k]
    case Take(_) => s.queue[0]
    case Succeed(w, _) => s.workers[w].t
    case Fail(w, _) => s.workers[w].t
    case Requeue(w) => s.workers[w].t
    case RehandOver(w, _) => s.workers[w].t
    case RetryGivesUp(w) => s.workers[w].t
    case _ => 0
  }

  /** A failed attempt that will not be retried. */
  predicate LastFailure(s: Dispatcher, a: Action)
    requires Enabled(s, a) && a.Fail?
  {
    s.StopFlag() || s.tasks[s.workers[a.w].t].numTries == 0 || a.output.None?
  }

  /** Whether a step takes its task out of circulation. */
  predicate Ends(s: Dispatcher, a: Action)
    requires Enabled(s, a)
  {
    a.GiveUp? || a.Succeed? || a.RetryGivesUp? || (a.Fail? && LastFailure(s, a))
  }

  lemma {:induction false} CarriedChange(s: Dispatcher, a: Action, t: nat)
    requires Enabled(s, a)
    ensures var hit := t == Subject(s, a);
            CarriedBy(Next(s, a).workers, t)
            == CarriedBy(s.workers, t)
             + Bool((a.HandOver? || a.Take?) && hit)
             - Bool((a.Requeue? || a.Succeed? || a.RetryGivesUp? || (a.Fail? && LastFailure(s, a))) && hit)
  {
    WorkersChange(s, a);
    if a.RehandOver? {
      CarriedUpdate(s.workers, a.v, Running(s.workers[a.w].t), t);
      CarriedUpdate(s.workers[a.v := Running(s.workers[a.w].t)], a.w, Finishing, t);
    } else if MovesWorker(a) {
      CarriedUpdate(s.workers, Actor(a), WorkerAfter(s, a), t);
    }
  }

  lemma {:induction false} WaitingChange(s: Dispatcher, a: Action, t: nat)
    requires Enabled(s, a)
    ensures var hit := t == Subject(s, a);
            var s' := Next(s, a);
            Count(s'.senders, t) + Count(s'.queue, t) + Bool((a.GiveUp? || a.HandOver? || a.Take?) && hit)
            == Count(s.senders, t) + Count(s.queue, t) + Bool((a.Submit? || a.Requeue?) && hit)
  {
    match a
    case Submit(x) => CountAppend(s.senders, x, t);
    case Enqueue(k) =>
      CountWithout(s.senders, k, t);
      CountAppend(s.queue, s.senders[k], t);
    case HandOver(k, _) => CountWithout(s.senders, k, t);
    case GiveUp(k) => CountWithout(s.senders, k, t);
    case Requeue(w) => CountAppend(s.queue, s.workers[w].t, t);
    case _ =>
  }

  /** A step adds a task to circulation when it submits it and removes it when it settles or rejects it. */
  lemma {:induction false} LiveChange(s: Dispatcher, a: Action, t: nat)
    requires Enabled(s, a)
    ensures Live(Next(s, a), t) + Bool(Ends(s, a) && t == Subject(s, a))
         == Live(s, t) + Bool(a.Submit? && t == Subject(s, a))
  {
    CarriedChange(s, a, t);
    WaitingChange(s, a, t);
  }

  /** What a step makes of a task. */
  function TaskAfter(s: Dispatcher, a: Action, t: nat): Task
    requires Enabled(s, a) && t < |s.tasks|
  {
    var task := s.tasks[t];
    if t != Subject(s, a) then task
    else match a
      case Submit(_) => task.(status := Submitted)
      case GiveUp(_) => task.(status := Rejected)
      case Succeed(_, output) => Settle(Attempted(task, output, false), Succeeded(output))
      case Fail(_, output) =>
        if LastFailure(s, a) then Settle(Attempted(task, output, true), Failed(output)) else Retried(task, output)
      case RetryGivesUp(_) => Settle(task, Failed(task.taskData))
      case _ => task
  }

  function Retried(task: Task, output: Data): Task {
    Attempted(task, output, true).(numTries := task.numTries - 1, taskData := output)
  }

  lemma {:induction false} TaskChange(s: Dispatcher, a: Action, t: nat)
    requires Enabled(s, a)
    ensures |Next(s, a).tasks| == |s.tasks|
    ensures t < |s.tasks| ==> Next(s, a).tasks[t] == TaskAfter(s, a, t)
  {
  }

  lemma {:induction false} LocationKept(s: Dispatcher, a: Action, t: nat)
    requires LocatedAt(s, t) && Enabled(s, a)
    ensures LocatedAt(Next(s, a), t)
  {
    LiveChange(s, a, t);
    TaskChange(s, a, t);
  }

  /** The task function is only run, and retries only given up, on tasks not yet settled. */
  lemma {:induction false} CarriedUnsettled(s: Dispatcher, w: nat)
    requires Inv(s) && w < |s.workers| && (s.workers[w].Running? || s.workers[w].Resending?)
    ensures s.workers[w].t < |s.tasks| && s.tasks[s.workers[w].t].settled == []
  {
    var t := s.workers[w].t;
    CarriedUpdate(s.workers, w, Idle, t);
    assert LocatedAt(s, t);
  }

  lemma {:induction false} ChainExtend(task: Task, a: Attempt)
    requires TaskOk(task) && task.settled == [] && a.input == task.taskData
    ensures Chained(task.initial, task.attempts + [a])
  {
    assert (task.attempts + [a])[..|task.attempts|] == task.attempts;
  }

  lemma {:induction false} SettleKeeps(task: Task, output: Data, failed: bool)
    requires TaskOk(task) && task.settled == []
    ensures TaskOk(Settle(Attempted(task, output, failed), if failed then Failed(output) else Succeeded(output)))
  {
    ChainExtend(task, Attempt(task.taskData, output, failed));
  }

  lemma {:induction false} RetryKeeps(task: Task, output: Data)
    requires TaskOk(task) && task.settled == [] && task.numTries != 0 && output.Some?
    ensures TaskOk(Retried(task, output))
  {
    ChainExtend(task, Attempt(task.taskData, output, true));
  }

  lemma {:induction false} TasksKept(s: Dispatcher, a: Action, t: nat)
    requires Inv(s) && Enabled(s, a) && t < |s.tasks|
    ensures TaskOk(Next(s, a).tasks[t])
  {
    var task := s.tasks[t];
    assert TaskOk(task);
    TaskChange(s, a, t);
    if (a.Succeed? || a.Fail? || a.RetryGivesUp?) && t == Subject(s, a) {
      CarriedUnsettled(s, a.w);
      assert WorkerOk(s, s.workers[a.w]);
      if a.Succeed? || (a.Fail? && LastFailure(s, a)) {
        SettleKeeps(task, a.output, a.Fail?);
      } else if a.Fail? {
        RetryKeeps(task, a.output);
      }
    }
  }

  lemma {:induction false} WorkersKept(s: Dispatcher, a: Action, v: nat)
    requires Inv(s) && Enabled(s, a) && v < |s.workers|
    ensures WorkerOk(Next(s, a), Next(s, a).workers[v])
  {
    var s' := Next(s, a);
    assert WorkerOk(s, s.workers[v]);
    WorkersChange(s, a);
    if s'.workers[v].Resending? {
      TaskChange(s, a, s'.workers[v].t);
    }
  }

  lemma {:induction false} InvKept(s: Dispatcher, a: Action)
    requires Inv(s) && Enabled(s, a)
    ensures Inv(Next(s, a))
  {
    CountKept(s, a);
    forall t: nat ensures LocatedAt(Next(s, a), t) {
      LocationKept(s, a, t);
    }
    forall t | 0 <= t < |s.tasks| ensures TaskOk(Next(s, a).tasks[t]) {
      TasksKept(s, a, t);
    }
    forall v | 0 <= v < |s.workers| ensures WorkerOk(Next(s, a), Next(s, a).workers[v]) {
      WorkersKept(s, a, v);
    }
  }

  // ----- whole runs

  function Run(s: Dispatcher, run: seq<Action>): Option<Dispatcher>
    decreases |run|
  {
    if run == [] then Some(s)
    else if Enabled(s, run[0]) then Run(Next(s, run[0]), run[1..])
    else None
  }

  /** Every run from a fresh dispatcher, in any interleaving, keeps the invariant. */
  lemma {:induction false} RunInv(s: Dispatcher, run: seq<Action>)
    requires Inv(s) && Run(s, run).Some?
    ensures Inv(Run(s, run).value)
    decreases |run|
  {
    if run != [] {
      InvKept(s, run[0]);
      RunInv(Next(s, run[0]), run[1..]);
    }
  }

  /** The queue is closed only when nobody is sending, nothing is queued and no worker holds a task. */
  lemma {:induction false} ClosedQuietly(s: Dispatcher)
    requires Inv(s) && s.stopper == Closed
    ensures s.senders == [] && s.queue == []
    ensures forall w | 0 <= w < |s.workers| :: s.workers[w].Idle? || s.workers[w].Exited?
    ensures forall t | 0 <= t < |s.tasks| :: s.tasks[t].status == Submitted ==> |s.tasks[t].settled| == 1
  {
    forall w | 0 <= w < |s.workers| ensures s.workers[w].Idle? || s.workers[w].Exited? {
      OwedZero(s.workers, w);
    }
    forall t: nat | t < |s.tasks| ensures s.tasks[t].status == Submitted ==> |s.tasks[t].settled| == 1 {
      QuietWorkers(s.workers, t);
      assert LocatedAt(s, t);
    }
  }

  lemma {:induction false} QuietWorkers(ws: seq<Worker>, t: nat)
    requires forall w | 0 <= w < |ws| :: ws[w].Idle? || ws[w].Exited?
    ensures CarriedBy(ws, t) == 0
    decreases |ws|
  {
    if ws != [] {
      QuietWorkers(ws[1..], t);
    }
  }

  /** A task is settled at most once, by the result of its last attempt, after at most retries + 1 attempts. */
  lemma {:induction false} SettledOnce(s: Dispatcher, t: nat)
    requires Inv(s) && t < |s.tasks| && s.tasks[t].retries >= 0
    ensures |s.tasks[t].settled| <= 1
    ensures |s.tasks[t].attempts| <= s.tasks[t].retries + 1
    ensures s.tasks[t].settled != [] ==> s.tasks[t].status == Submitted && Live(s, t) == 0
    ensures s.tasks[t].status == Rejected ==> s.tasks[t].settled == [] && Live(s, t) == 0
  {
    assert LocatedAt(s, t) && TaskOk(s.tasks[t]);
  }

  // ----- why a task was settled

  /** Some worker gave up handing a retry of the task back to the queue. */
  predicate GaveUpOn(s: Dispatcher, run: seq<Action>, t: nat)
    requires Run(s, run).Some?
    decreases |run|
  {
    run != []
    && ((run[0].RetryGivesUp? && s.workers[run[0].w] == Resending(t)) || GaveUpOn(Next(s, run[0]), run[1..], t))
  }

  predicate AllFailed(attempts: seq<Attempt>) {
    forall i | 0 <= i < |attempts| :: attempts[i].failed && attempts[i].output.Some?
  }

  /**
   The attempts before the last all failed and left data, and the task is settled by
   its last attempt only. If that one failed and left data too, it was the last of
   retries + 1, unless Stop was called or a retry of the task given up.
   */
  ghost predicate Explained(task: Task, stopped: bool, gaveUp: bool) {
    if task.settled == [] then AllFailed(task.attempts)
    else
      && task.attempts != []
      && var last := task.attempts[|task.attempts| - 1];
      && AllFailed(task.attempts[..|task.attempts| - 1])
      && task.settled == [if last.failed then Failed(last.output) else Succeeded(last.output)]
      && (last.failed && last.output.Some? && !stopped && !gaveUp ==> |task.attempts| == task.retries + 1)
  }

  /** A failure that ends the task: no try was left, or it left no data, or the dispatcher was stopped. */
  lemma {:induction false} ExplainedEnd(task: Task, output: Data, failed: bool, stopped: bool, gaveUp: bool)
    requires TaskOk(task) && task.settled == [] && AllFailed(task.attempts)
    requires failed ==> stopped || task.numTries == 0 || output.None?
    ensures Explained(Settle(Attempted(task, output, failed), if failed then Failed(output) else Succeeded(output)),
                      stopped, gaveUp)
  {
    DropLast(task.attempts, Attempt(task.taskData, output, failed));
  }

  lemma {:induction false} ExplainedRetry(task: Task, output: Data, stopped: bool, gaveUp: bool)
    requires task.settled == [] && AllFailed(task.attempts) && output.Some?
    ensures Explained(Retried(task, output), stopped, gaveUp)
  {
  }

  lemma {:induction false} ExplainedGiveUp(task: Task, stopped: bool)
    requires TaskOk(task) && task.settled == [] && AllFailed(task.attempts) && task.attempts != []
    ensures Explained(Settle(task, Failed(task.taskData)), stopped, true)
  {
  }

  lemma {:induction false} ExplainedStep(s: Dispatcher, a: Action, t: nat, stopped: bool, gaveUp: bool)
    requires Inv(s) && Enabled(s, a) && t < |s.tasks| && Explained(s.tasks[t], stopped, gaveUp)
    requires s.StopFlag() ==> stopped
    requires a.RetryGivesUp? && s.workers[a.w] == Resending(t) ==> gaveUp
    ensures t < |Next(s, a).tasks| && Explained(Next(s, a).tasks[t], stopped, gaveUp)
  {
    var task := s.tasks[t];
    TaskChange(s, a, t);
    assert TaskOk(task);
    if (a.Succeed? || a.Fail? || a.RetryGivesUp?) && t == Subject(s, a) {
      CarriedUnsettled(s, a.w);
      assert WorkerOk(s, s.workers[a.w]);
      if a.Succeed? || (a.Fail? && LastFailure(s, a)) {
        ExplainedEnd(task, a.output, a.Fail?, stopped, gaveUp);
      } else if a.Fail? {
        ExplainedRetry(task, a.output, stopped, gaveUp);
      } else {
        ExplainedGiveUp(task, stopped);
      }
    }
  }

  lemma {:induction false} ExplainedRun(s: Dispatcher, run: seq<Action>, t: nat, stopped: bool, gaveUp: bool)
    requires Inv(s) && Run(s, run).Some? && t < |s.tasks| && Explained(s.tasks[t], stopped, gaveUp)
    requires s.StopFlag() || StopCalled in run ==> stopped
    requires GaveUpOn(s, run, t) ==> gaveUp
    ensures t < |Run(s, run).value.tasks| && Explained(Run(s, run).value.tasks[t], stopped, gaveUp)
    decreases |run|
  {
    if run != [] {
      ExplainedStep(s, run[0], t, stopped, gaveUp);
      InvKept(s, run[0]);
      ExplainedRun(Next(s, run[0]), run[1..], t, stopped, gaveUp);
    }
  }

  lemma {:induction false} NobodyGaveUp(s: Dispatcher, run: seq<Action>, t: nat)
    requires Run(s, run).Some? && forall a | a in run :: !a.RetryGivesUp?
    ensures !GaveUpOn(s, run, t)
    decreases |run|
  {
    if run != [] {
      NobodyGaveUp(Next(s, run[0]), run[1..], t);
    }
  }

  /**
   In every state that submitters, workers and Stop can reach: the wait group
   counts exactly what is being sent, queued or held; nothing panics; the queue is
   closed only when all is quiet; no task is settled twice or run too often; and none
   is settled by a failure before its retries are used up, without a reason.
   */
  lemma {:induction false} DispatcherSafe(capacity: nat, numWorkers: nat, tasks: seq<Task>, run: seq<Action>)
    requires forall task | task in tasks :: task == NewTask(task.retries, task.initial)
    requires Run(Start(capacity, numWorkers, tasks), run).Some?
    ensures var s := Run(Start(capacity, numWorkers, tasks), run).value;
            && s.queued == |s.senders| + |s.queue| + OwedAll(s.workers)
            && !s.panicked
            && (s.stopper == Closed ==> s.senders == [] && s.queue == [] && OwedAll(s.workers) == 0)
            && (forall t | 0 <= t < |s.tasks| ::
                  && |s.tasks[t].settled| <= 1
                  && (s.tasks[t].retries >= 0 ==> |s.tasks[t].attempts| <= s.tasks[t].retries + 1)
                  && Explained(s.tasks[t], StopCalled in run, GaveUpOn(Start(capacity, numWorkers, tasks), run, t)))
  {
    var start := Start(capacity, numWorkers, tasks);
    StartInv(capacity, numWorkers, tasks);
    RunInv(start, run);
    RunShape(start, run);
    forall t | 0 <= t < |tasks|
      ensures Explained(Run(start, run).value.tasks[t], StopCalled in run, GaveUpOn(start, run, t))
    {
      assert tasks[t] in tasks;
      ExplainedRun(start, run, t, StopCalled in run, GaveUpOn(start, run, t));
    }
  }

  // ----- progress

  /** Tries a task still has, while it is in circulation. */
  function TriesLeft(task: Task): nat {
    if task.status == Submitted && task.settled == [] && task.numTries > 0 then task.numTries else 0
  }

  function TriesAll(tasks: seq<Task>): nat {
    if tasks == [] then 0 else TriesLeft(tasks[0]) + TriesAll(tasks[1..])
  }

  function WorkerSteps(w: Worker): nat {
    match w
    case Exited => 0
    case Idle => 1
    case Finishing => 2
    case Running(_) => 3
    case Resending(_) => 6
  }

  function WorkerStepsAll(ws: seq<Worker>): nat {
    if ws == [] then 0 else WorkerSteps(ws[0]) + WorkerStepsAll(ws[1..])
  }

  function StopSteps(p: Stopper): nat {
    match p
    case NotStopped => 3
    case Waiting => 2
    case Released => 1
    case Closed => 0
  }

  /** An upper bound on the steps that can follow without a new submission. */
  function Measure(s: Dispatcher): nat {
    4 * TriesAll(s.tasks) + 4 * |s.senders| + 3 * |s.queue| + WorkerStepsAll(s.workers) + StopSteps(s.stopper)
  }

  lemma {:induction false} TriesUpdate(tasks: seq<Task>, t: nat, task: Task)
    requires t < |tasks|
    ensures TriesAll(tasks[t := task]) == TriesAll(tasks) - TriesLeft(tasks[t]) + TriesLeft(task)
    ensures TriesLeft(tasks[t]) <= TriesAll(tasks)
    decreases |tasks|
  {
    if t == 0 {
      assert tasks[t := task][1..] == tasks[1..];
    } else {
      TriesUpdate(tasks[1..], t - 1, task);
      assert tasks[t := task][1..] == tasks[1..][t - 1 := task];
    }
  }

  lemma {:induction false} WorkerStepsUpdate(ws: seq<Worker>, w: nat, pc: Worker)
    requires w < |ws|
    ensures WorkerStepsAll(ws[w := pc]) == WorkerStepsAll(ws) - WorkerSteps(ws[w]) + WorkerSteps(pc)
    ensures WorkerSteps(ws[w]) <= WorkerStepsAll(ws)
    decreases |ws|
  {
    if w == 0 {
      assert ws[w := pc][1..] == ws[1..];
    } else {
      WorkerStepsUpdate(ws[1..], w - 1, pc);
      assert ws[w := pc][1..] == ws[1..][w - 1 := pc];
    }
  }

  lemma {:induction false} WorkerStepsChange(s: Dispatcher, a: Action)
    requires Enabled(s, a) && (a.Take? ==> s.queue != [])
    ensures WorkerStepsAll(Next(s, a).workers)
         == WorkerStepsAll(s.workers)
          + match a
            case HandOver(_, _) => 2
            case Take(_) => 2
            case Succeed(_, _) => -1
            case Fail(_, _) => if LastFailure(s, a) then -1 else 3
            case Requeue(_) => -4
            case RehandOver(_, _) => -2
            case RetryGivesUp(_) => -4
            case Finish(_) => -1
            case Exit(_) => -1
            case _ => 0
  {
    WorkersChange(s, a);
    if a.RehandOver? {
      WorkerStepsUpdate(s.workers, a.v, Running(s.workers[a.w].t));
      WorkerStepsUpdate(s.workers[a.v := Running(s.workers[a.w].t)], a.w, Finishing);
    } else if MovesWorker(a) {
      WorkerStepsUpdate(s.workers, Actor(a), WorkerAfter(s, a));
    }
  }

  /** Retrying uses up a try; no other step but a submission adds one. */
  lemma {:induction false} TriesChange(s: Dispatcher, a: Action)
    requires Inv(s) && Enabled(s, a) && !a.Submit?
    requires forall t | 0 <= t < |s.tasks| :: s.tasks[t].retries >= 0
    ensures TriesAll(Next(s, a).tasks) <= TriesAll(s.tasks) - Bool(a.Fail? && !LastFailure(s, a))
  {
    var s' := Next(s, a);
    if a.GiveUp? || a.Succeed? || a.Fail? || a.RetryGivesUp? {
      var t := Subject(s, a);
      TriesUpdate(s.tasks, t, s'.tasks[t]);
      assert TaskOk(s.tasks[t]) && LocatedAt(s, t);
      if a.Fail? {
        CarriedUpdate(s.workers, a.w, Idle, t);
      }
    }
  }

  /** Every step other than a submission makes progress, whatever the interleaving. */
  lemma {:induction false} Progress(s: Dispatcher, a: Action)
    requires Inv(s) && Enabled(s, a) && !a.Submit?
    requires forall t | 0 <= t < |s.tasks| :: s.tasks[t].retries >= 0
    ensures Measure(Next(s, a)) < Measure(s)
  {
    TriesChange(s, a);
    WorkerStepsChange(s, a);
  }

  /** Between submissions only boundedly many steps are possible. */
  lemma {:induction false} RunBounded(s: Dispatcher, run: seq<Action>)
    requires Inv(s) && Run(s, run).Some?
    requires forall t | 0 <= t < |s.tasks| :: s.tasks[t].retries >= 0
    requires forall a | a in run :: !a.Submit?
    ensures |run| + Measure(Run(s, run).value) <= Measure(s)
    decreases |run|
  {
    if run != [] {
      Progress(s, run[0]);
      InvKept(s, run[0]);
      RetriesStay(s, run[0]);
      RunBounded(Next(s, run[0]), run[1..]);
    }
  }

  lemma {:induction false} RetriesStay(s: Dispatcher, a: Action)
    requires Enabled(s, a)
    ensures |Next(s, a).tasks| == |s.tasks|
    ensures forall t | 0 <= t < |s.tasks| :: Next(s, a).tasks[t].retries == s.tasks[t].retries
  {
    forall t | 0 <= t < |s.tasks| ensures Next(s, a).tasks[t].retries == s.tasks[t].retries {
      TaskChange(s, a, t);
    }
  }

  /** Steps that neither send, queue, run nor finish a task. */
  predicate Aside(a: Action) {
    a.Submit? || a.StopCalled? || a.StopReleased? || a.StopCloses? || a.Exit?
  }

  /** No task can move on, whether or not Stop has been called. */
  ghost predicate Resting(s: Dispatcher) {
    forall a | Enabled(s, a) :: Aside(a)
  }

  lemma {:induction false} RestingWorker(s: Dispatcher, w: nat)
    requires Inv(s) && Resting(s) && w < |s.workers|
    ensures s.workers[w].Idle? || s.workers[w].Exited?
  {
    if s.workers[w].Running? || s.workers[w].Resending? {
      CarriedUnsettled(s, w);
    }
    assert !Enabled(s, Succeed(w, None)) && !Enabled(s, RetryGivesUp(w)) && !Enabled(s, Finish(w));
  }

  /** When no task can move on, every submitted task has been settled or rejected. */
  lemma {:induction false} Quiescent(s: Dispatcher, t: nat)
    requires Inv(s) && s.workers != [] && Resting(s)
    requires t < |s.tasks| && s.tasks[t].status == Submitted
    ensures |s.tasks[t].settled| == 1
  {
    if s.senders != [] {
      assert LocatedAt(s, s.senders[0]);
      assert Count(s.senders, s.senders[0]) > 0;
      assert Enabled(s, GiveUp(0));
    }
    forall w | 0 <= w < |s.workers| ensures s.workers[w].Idle? || s.workers[w].Exited? {
      RestingWorker(s, w);
    }
    assert s.queue == [] by {
      assert !Enabled(s, Take(0));
      assert WorkerOk(s, s.workers[0]);
    }
    QuietWorkers(s.workers, t);
    assert LocatedAt(s, t);
  }

  /** Submitted, and past the dispatch that may still give up. */
  ghost predicate Accepted(s: Dispatcher, t: nat) {
    t < |s.tasks| && s.tasks[t].status == Submitted && Count(s.senders, t) == 0
  }

  lemma {:induction false} AcceptedKept(s: Dispatcher, a: Action, t: nat)
    requires Enabled(s, a) && Accepted(s, t)
    ensures Accepted(Next(s, a), t) && |Next(s, a).workers| == |s.workers|
  {
    if a.Submit? {
      CountAppend(s.senders, a.t, t);
    } else if a.Enqueue? || a.HandOver? || a.GiveUp? {
      CountWithout(s.senders, a.k, t);
    }
  }

  lemma {:induction false} RunAccepted(s: Dispatcher, run: seq<Action>, t: nat)
    requires Run(s, run).Some? && Accepted(s, t)
    ensures Accepted(Run(s, run).value, t) && |Run(s, run).value.workers| == |s.workers|
    decreases |run|
  {
    if run != [] {
      AcceptedKept(s, run[0], t);
      RunAccepted(Next(s, run[0]), run[1..], t);
    }
  }

  /** From every state some run without submissions brings all tasks to rest. */
  lemma {:induction false} SomeRunSettles(s: Dispatcher) returns (run: seq<Action>)
    requires Inv(s) && forall t | 0 <= t < |s.tasks| :: s.tasks[t].retries >= 0
    ensures (forall a | a in run :: !Aside(a)) && Run(s, run).Some? && Resting(Run(s, run).value)
    decreases Measure(s)
  {
    if Resting(s) {
      run := [];
    } else {
      var a :| Enabled(s, a) && !Aside(a);
      Progress(s, a);
      InvKept(s, a);
      var rest := SomeRunSettles(Next(s, a));
      run := [a] + rest;
      assert run[1..] == rest;
    }
  }

  /**
   From every reachable state of a dispatcher with workers, stopped or not: a run
   without submissions is bounded, and once it cannot go on with a task, every task
   that had been accepted is settled exactly once and was not rejected. Unless Stop
   was called or a retry given up, it was run until it succeeded, failed without
   leaving data, or had failed retries + 1 times.
   */
  lemma {:induction false} AcceptedIsSettled(capacity: nat, numWorkers: nat, tasks: seq<Task>, run: seq<Action>,
                                             more: seq<Action>, t: nat)
    requires numWorkers > 0
    requires forall task | task in tasks :: task == NewTask(task.retries, task.initial) && task.retries >= 0
    requires Run(Start(capacity, numWorkers, tasks), run).Some?
    requires var s := Run(Start(capacity, numWorkers, tasks), run).value;
             && Accepted(s, t) && (forall a | a in more :: !a.Submit?)
             && Run(s, more).Some? && Resting(Run(s, more).value)
    ensures var s := Run(Start(capacity, numWorkers, tasks), run).value;
            && |more| <= Measure(s) && t < |Run(s, more).value.tasks|
            && var task := Run(s, more).value.tasks[t];
            && task.status == Submitted && |task.settled| == 1 && |task.attempts| <= task.retries + 1
            && task.attempts != []
            && var last := task.attempts[|task.attempts| - 1];
            && task.settled == [if last.failed then Failed(last.output) else Succeeded(last.output)]
            && AllFailed(task.attempts[..|task.attempts| - 1])
            && ((forall a | a in run + more :: !a.StopCalled? && !a.RetryGivesUp?) ==>
                  !last.failed || last.output.None? || |task.attempts| == task.retries + 1)
  {
    var start := Start(capacity, numWorkers, tasks);
    StartInv(capacity, numWorkers, tasks);
    forall u | 0 <= u < |tasks| ensures tasks[u].retries >= 0 {
      assert tasks[u] in tasks;
    }
    RunInv(start, run);
    RunShape(start, run);
    var s := Run(start, run).value;
    RunBounded(s, more);
    RunInv(s, more);
    RunShape(s, more);
    RunAccepted(s, more, t);
    Quiescent(Run(s, more).value, t);
    SettledOnce(Run(s, more).value, t);
    RunConcat(start, run, more);
    DispatcherSafe(capacity, numWorkers, tasks, run + more);
    if forall a | a in run + more :: !a.StopCalled? && !a.RetryGivesUp? {
      assert StopCalled !in run + more;
      NobodyGaveUp(start, run + more, t);
    }
  }

  /** A run changes neither the number of workers nor the tasks' retry counts. */
  lemma {:induction false} RunShape(s: Dispatcher, run: seq<Action>)
    requires Run(s, run).Some?
    ensures var s' := Run(s, run).value;
            && |s'.workers| == |s.workers| && |s'.tasks| == |s.tasks|
            && forall t | 0 <= t < |s.tasks| :: s'.tasks[t].retries == s.tasks[t].retries
    decreases |run|
  {
    if run != [] {
      StepShape(s, run[0]);
      RunShape(Next(s, run[0]), run[1..]);
    }
  }

  lemma {:induction false} StepShape(s: Dispatcher, a: Action)
    requires Enabled(s, a)
    ensures var s' := Next(s, a);
            && |s'.workers| == |s.workers| && |s'.tasks| == |s.tasks|
            && forall t | 0 <= t < |s.tasks| :: s'.tasks[t].retries == s.tasks[t].retries
  {
  }

  // ----- without the lower bound on retries

  /** One worker, one task submitted with r retries, already run n times and queued again. */
  function Retrying(r: int, n: nat, attempts: seq<Attempt>, d: int): Dispatcher {
    Dispatcher(1, 1, [0], [], [Idle], [Task(r, Some(d), Submitted, r - n, Some(d), attempts, [])], NotStopped, false)
  }

  /** With a negative retry count, whichever, a failing task can be run any number of times. */
  lemma {:induction false} NegativeRetriesUnbounded(r: int, n: nat, d: int)
    returns (run: seq<Action>, attempts: seq<Attempt>)
    requires r < 0
    ensures Run(Start(1, 1, [NewTask(r, Some(d))]), run) == Some(Retrying(r, n, attempts, d))
    ensures |attempts| == n
  {
    var start := Start(1, 1, [NewTask(r, Some(d))]);
    assert start.workers == [Idle];
    if n == 0 {
      run, attempts := [Submit(0), Enqueue(0)], [];
      var s1 := Next(start, Submit(0));
      assert s1.senders == [0];
      assert Without(s1.senders, 0) == [];
      RunTwo(start, Submit(0), Enqueue(0));
      assert Next(s1, Enqueue(0)) == Retrying(r, 0, [], d);
    } else {
      var before, past := NegativeRetriesUnbounded(r, n - 1, d);
      var round := RetryRound(r, n - 1, past, d);
      run := before + round;
      attempts := past + [Attempt(Some(d), Some(d), true)];
      RunConcat(start, before, round);
    }
  }

  lemma {:induction false} RunTwo(s: Dispatcher, a: Action, b: Action)
    requires Enabled(s, a) && Enabled(Next(s, a), b)
    ensures Run(s, [a, b]) == Some(Next(Next(s, a), b))
  {
    var s2 := Next(Next(s, a), b);
    assert [a, b][1..] == [b] && [b][1..] == [];
    assert Run(s2, []) == Some(s2);
    assert Run(Next(s, a), [b]) == Some(s2);
  }

  lemma {:induction false} RunConcat(s: Dispatcher, a: seq<Action>, b: seq<Action>)
    requires Run(s, a).Some?
    ensures Run(s, a + b) == Run(Run(s, a).value, b)
    decreases |a|
  {
    if a == [] {
      assert a + b == b;
    } else {
      assert (a + b)[1..] == a[1..] + b;
      RunConcat(Next(s, a[0]), a[1..], b);
    }
  }

  lemma {:induction false} RetryRound(r: int, n: nat, attempts: seq<Attempt>, d: int) returns (run: seq<Action>)
    requires r < 0
    ensures Run(Retrying(r, n, attempts, d), run)
         == Some(Retrying(r, n + 1, attempts + [Attempt(Some(d), Some(d), true)], d))
  {
    var s := Retrying(r, n, attempts, d);
    var s2 := Next(Next(s, Take(0)), Fail(0, Some(d)));
    RunTwo(s, Take(0), Fail(0, Some(d)));
    assert s2.queue == [] && s2.workers == [Resending(0)];
    var s4 := Next(Next(s2, Requeue(0)), Finish(0));
    assert s4.queue == [0] && s4.workers == [Idle];
    assert s4.tasks == Retrying(r, n + 1, attempts + [Attempt(Some(d), Some(d), true)], d).tasks;
    RunTwo(s2, Requeue(0), Finish(0));
    RunConcat(s, [Take(0), Fail(0, Some(d))], [Requeue(0), Finish(0)]);
    run := [Take(0), Fail(0, Some(d))] + [Requeue(0), Finish(0)];
  }
}
