/**
 More of whole runs of the dispatcher: what Stop ends, and the order in which queued
 tasks are run.
 */
module TaskRuns {
  import opened Common
  import opened Tasks

  // ----- what Stop ends

  /** Before its one further attempt a task has n, after it n + 1 and is settled. */
  ghost predicate LastChance(task: Task, n: nat) {
    |task.attempts| == n || (|task.attempts| == n + 1 && task.settled != [])
  }

  lemma {:induction false} LastChanceStep(s: Dispatcher, a: Action, t: nat, n: nat)
    requires Inv(s) && Enabled(s, a) && s.StopFlag() && t < |s.tasks| && LastChance(s.tasks[t], n)
    ensures t < |Next(s, a).tasks| && LastChance(Next(s, a).tasks[t], n) && Next(s, a).StopFlag()
  {
    TaskChange(s, a, t);
    if (a.Succeed? || a.Fail?) && t == Subject(s, a) {
      CarriedUnsettled(s, a.w);
    }
  }

  /** After Stop has been called nothing is retried: each task is run at most once more, and that settles it. */
  lemma {:induction false} StopEndsRetries(s: Dispatcher, run: seq<Action>, t: nat)
    requires Inv(s) && s.StopFlag() && Run(s, run).Some? && t < |s.tasks|
    ensures var s' := Run(s, run).value;
            && t < |s'.tasks|
            && var before, after := |s.tasks[t].attempts|, |s'.tasks[t].attempts|;
            before <= after <= before + 1 && (after > before ==> s'.tasks[t].settled != [])
  {
    LastChanceRun(s, run, t, |s.tasks[t].attempts|);
  }

  lemma {:induction false} LastChanceRun(s: Dispatcher, run: seq<Action>, t: nat, n: nat)
    requires Inv(s) && s.StopFlag() && Run(s, run).Some? && t < |s.tasks| && LastChance(s.tasks[t], n)
    ensures t < |Run(s, run).value.tasks| && LastChance(Run(s, run).value.tasks[t], n)
    decreases |run|
  {
    if run != [] {
      LastChanceStep(s, run[0], t, n);
      InvKept(s, run[0]);
      LastChanceRun(Next(s, run[0]), run[1..], t, n);
    }
  }

  // ----- the order of the queue

  /** The tasks a run puts into the queue, retries included, in order. */
  function Queued(s: Dispatcher, run: seq<Action>): seq<nat>
    requires Run(s, run).Some?
    decreases |run|
  {
    if run == [] then []
    else
      (match run[0]
       case Enqueue(k) => [s.senders[k]]
       case Requeue(w) => [s.workers[w].t]
       case _ => [])
      + Queued(Next(s, run[0]), run[1..])
  }

  /** The tasks that workers are found running after taking one from the queue, in order. */
  function Started(s: Dispatcher, run: seq<Action>): seq<Worker>
    requires Run(s, run).Some?
    decreases |run|
  {
    if run == [] then []
    else
      var s' := Next(s, run[0]);
      (if run[0].Take? then [s'.workers[run[0].w]] else []) + Started(s', run[1..])
  }

  function RunningAll(ts: seq<nat>): seq<Worker> {
    seq(|ts|, i requires 0 <= i < |ts| => Running(ts[i]))
  }

  lemma {:induction false} RunningConcat(a: seq<nat>, b: seq<nat>)
    ensures RunningAll(a + b) == RunningAll(a) + RunningAll(b)
  {
  }

  /** The queue is first in, first out: what is started is a prefix of what was put in, and the queue is the rest. */
  lemma {:induction false} QueueOrder(s: Dispatcher, run: seq<Action>)
    requires Run(s, run).Some?
    ensures RunningAll(s.queue + Queued(s, run)) == Started(s, run) + RunningAll(Run(s, run).value.queue)
    decreases |run|
  {
    if run == [] {
      ConcatEmpty(s.queue);
      EmptyConcat(RunningAll(s.queue));
    } else {
      var a, s', rest := run[0], Next(s, run[0]), run[1..];
      QueueOrder(s', rest);
      QueueStep(s, a, Queued(s', rest), Started(s', rest), RunningAll(Run(s', rest).value.queue));
    }
  }

  lemma {:induction false} QueueStep(s: Dispatcher, a: Action, queued: seq<nat>, started: seq<Worker>,
                                     left: seq<Worker>)
    requires Enabled(s, a) && RunningAll(Next(s, a).queue + queued) == started + left
    ensures RunningAll(s.queue + ((match a
                                   case Enqueue(k) => [s.senders[k]]
                                   case Requeue(w) => [s.workers[w].t]
                                   case _ => []) + queued))
         == (if a.Take? then [Next(s, a).workers[a.w]] else []) + started + left
  {
    match a
    case Enqueue(k) => ConcatAssoc(s.queue, [s.senders[k]], queued);
    case Requeue(w) => ConcatAssoc(s.queue, [s.workers[w].t], queued);
    case Take(w) =>
      EmptyConcat(queued);
      assert s.queue + queued == [s.queue[0]] + (s.queue[1..] + queued);
      RunningConcat([s.queue[0]], s.queue[1..] + queued);
      assert RunningAll([s.queue[0]]) == [Running(s.queue[0])];
      ConcatAssoc([Running(s.queue[0])], started, left);
    case _ =>
      EmptyConcat(queued);
      EmptyConcat(started + left);
      EmptyConcat(started);
  }
}
