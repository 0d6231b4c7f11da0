/**
 More of whole runs of the timer: what becomes of every tick, at what interval it
 ticks, and that an error can end it.
 */
module TimerRuns {
  import opened Common
  import opened Timer

  // ----- what becomes of a tick

  /** An invocation of the callback that has begun and has not been answered. */
  predicate Open(pc: Pc) {
    pc.Check? || pc.Waiting? || pc.Entering? || pc.Callback?
  }

  function OpenAll(ts: seq<Thread>): nat {
    if ts == [] then 0 else (if Open(ts[0].pc) then 1 else 0) + OpenAll(ts[1..])
  }

  lemma {:induction false} OpenPut(ts: seq<Thread>, i: nat, t: Thread)
    requires i < |ts|
    ensures OpenAll(ts[i := t]) == OpenAll(ts) - (if Open(ts[i].pc) then 1 else 0) + (if Open(t.pc) then 1 else 0)
    decreases |ts|
  {
    if i == 0 {
      assert ts[i := t][1..] == ts[1..];
    } else {
      assert ts[i := t][1..] == ts[1..][i - 1 := t];
      OpenPut(ts[1..], i - 1, t);
    }
  }

  lemma {:induction false} OpenAdd(ts: seq<Thread>, t: Thread)
    ensures OpenAll(ts + [t]) == OpenAll(ts) + (if Open(t.pc) then 1 else 0)
    decreases |ts|
  {
    if ts == [] {
      assert ts + [t] == [t];
    } else {
      assert (ts + [t])[1..] == ts[1..] + [t];
      OpenAdd(ts[1..], t);
    }
  }

  /** The number of actions of a run that satisfy a condition. */
  function Number(run: seq<Action>, which: Action -> bool): nat {
    if run == [] then 0 else (if which(run[0]) then 1 else 0) + Number(run[1..], which)
  }

  const TICKS: Action -> bool := (a: Action) => a.Tick? || a == Start(0)
  const ANSWERS: Action -> bool := (a: Action) => a.Answer?
  const SKIPS: Action -> bool := (a: Action) => a.WaitTimeout?

  function One(a: Action, which: Action -> bool): nat {
    if which(a) then 1 else 0
  }

  lemma {:induction false} OpenMove(s: State, i: nat, pc: Pc)
    requires i < |s.threads|
    ensures OpenAll(Put(s, i, pc).threads)
         == OpenAll(s.threads) - (if Open(s.threads[i].pc) then 1 else 0) + (if Open(pc) then 1 else 0)
  {
    OpenPut(s.threads, i, s.threads[i].(pc := pc));
  }

  lemma {:induction false} OpenSpawn(s: State, i: nat)
    requires i < |s.threads| && s.threads[i].pc.Spawn?
    ensures OpenAll(AdvanceThread(s, i).value.threads) == OpenAll(s.threads)
  {
    OpenMove(s, i, Return(true));
    OpenAdd(Put(s, i, Return(true)).threads, Thread(Begin(s.threads[i].pc.timeout), true));
  }

  /** A goroutine's own step opens and closes no invocation. */
  lemma {:induction false} OpenAdvance(s: State, i: nat)
    requires i < |s.threads| && AdvanceThread(s, i).Some? && !s.threads[i].pc.Spawn?
    ensures OpenAll(AdvanceThread(s, i).value.threads) == OpenAll(s.threads)
  {
    match s.threads[i].pc
    case Begin(_) => OpenMove(s, i, Enter);
    case Enter => OpenMove(s, i, Select);
    case Check => OpenMove(s, i, if s.tick > 0 then Waiting else Entering);
    case Entering => OpenMove(s, i, Callback);
    case Decide(timeout) =>
      OpenMove(s, i, if timeout == 0 || timeout == s.tick then Return(!s.threads[i].loop) else Spawn(timeout));
    case Fail => OpenMove(s, i, Return(true));
    case Return(exit) => OpenMove(s, i, if exit then Ended else Enter);
  }

  /** The steps at which something else decides how a goroutine goes on. */
  lemma {:induction false} OpenChoice(s: State, a: Action)
    requires Step(s, a).Some? && !a.Start? && !a.Advance? && !a.Stop? && !a.Outside?
    ensures OpenAll(Step(s, a).value.threads) + One(a, ANSWERS) + One(a, SKIPS) == OpenAll(s.threads) + One(a, TICKS)
  {
    match a
    case Tick(i) => OpenMove(s, i, Check);
    case Done(i) => OpenMove(s, i, if s.ctx == Cancelled then CancelWait else Ended);
    case WaitOver(i) => OpenMove(s, i, Entering);
    case WaitTimeout(i) => OpenMove(s, i, Resume(s.threads[i]));
    case Answer(i, timeout, error) => OpenMove(s, i, if error && s.stopOnError then Fail else Decide(timeout));
    case Handshake(i) => OpenMove(s, i, Ended);
  }

  lemma {:induction false} TickStep(s: State, a: Action)
    requires Step(s, a).Some?
    ensures OpenAll(Step(s, a).value.threads) + One(a, ANSWERS) + One(a, SKIPS) == OpenAll(s.threads) + One(a, TICKS)
  {
    if a.Start? {
      OpenAdd(s.threads, if a.timeout == 0 then Thread(Check, false) else Thread(Begin(a.timeout), true));
    } else if a.Advance? {
      if s.threads[a.i].pc.Spawn? {
        OpenSpawn(s, a.i);
      } else {
        OpenAdvance(s, a.i);
      }
    } else if !a.Stop? && !a.Outside? {
      OpenChoice(s, a);
    }
  }

  /**
   In every run each tick, and a Start without an interval, begins one invocation,
   and each invocation is answered by the callback once, skipped once because another
   was in flight, or still open.
   */
  lemma {:induction false} EveryTickCounts(s: State, run: seq<Action>)
    requires Run(s, run).Some?
    ensures OpenAll(Run(s, run).value.threads) + Number(run, ANSWERS) + Number(run, SKIPS)
         == OpenAll(s.threads) + Number(run, TICKS)
    decreases |run|
  {
    if run != [] {
      TickStep(s, run[0]);
      EveryTickCounts(Step(s, run[0]).value, run[1..]);
    }
  }

  // ----- at what interval

  /** The interval asked for last: by Start, or by an answer other than zero. */
  function Asked(asked: int, run: seq<Action>): int
    decreases |run|
  {
    if run == [] then asked else Asked(AskedNext(asked, run[0]), run[1..])
  }

  function AskedNext(asked: int, a: Action): int {
    match a
    case Start(timeout) => timeout
    case Answer(_, timeout, _) => if timeout == 0 then asked else timeout
    case _ => asked
  }

  /** The goroutine with the right has the interval, or is about to set it. */
  predicate Agrees(t: Thread, tick: int, asked: int) {
    match t.pc
    case Begin(timeout) => timeout == asked
    case Spawn(timeout) => timeout == asked
    case Decide(timeout) => if timeout == 0 then t.loop ==> tick == asked else timeout == asked
    case Fail => true
    case _ => Right(t.pc) && t.loop ==> tick == asked
  }

  predicate AllAgree(s: State, asked: int) {
    forall i | 0 <= i < |s.threads| :: Agrees(s.threads[i], s.tick, asked)
  }

  /** The others have no right, so that nothing is asked of them. */
  lemma {:induction false} OthersAgree(s: State, s': State, i: nat, asked: int)
    requires Inv(s) && i < |s.threads| <= |s'.threads| && Right(s.threads[i].pc)
    requires forall j | 0 <= j < |s.threads| && j != i :: s'.threads[j] == s.threads[j]
    requires forall j | |s.threads| <= j < |s'.threads| :: Agrees(s'.threads[j], s'.tick, asked)
    requires Agrees(s'.threads[i], s'.tick, asked)
    ensures AllAgree(s', asked)
  {
    forall j | 0 <= j < |s'.threads| ensures Agrees(s'.threads[j], s'.tick, asked) {
      if j < |s.threads| && j != i {
        OneRight(s, i, j);
      }
    }
  }

  /** A step without a goroutine that holds the right changes no interval. */
  lemma {:induction false} SameTick(s: State, s': State, asked: int)
    requires AllAgree(s, asked) && s'.tick == s.tick && s'.threads == s.threads
    ensures AllAgree(s', asked)
  {
  }

  /** A goroutine without the right can only leave. */
  lemma {:induction false} LeaverAgrees(s: State, i: nat, asked: int)
    requires AllAgree(s, asked) && i < |s.threads| && AdvanceThread(s, i).Some? && !Right(s.threads[i].pc)
    ensures AllAgree(AdvanceThread(s, i).value, asked)
  {
    var s' := AdvanceThread(s, i).value;
    assert s' == Put(s, i, Ended).(inflight := s.inflight - 1);
    forall j | 0 <= j < |s'.threads| ensures Agrees(s'.threads[j], s'.tick, asked) {
      assert Agrees(s.threads[j], s.tick, asked);
    }
  }

  lemma {:induction false} OwnAgrees(s: State, i: nat, asked: int)
    requires i < |s.threads| && AdvanceThread(s, i).Some? && Right(s.threads[i].pc)
    requires Agrees(s.threads[i], s.tick, asked) && TickerOk(s.timer, s.stopper, s.threads[i])
    ensures var s' := AdvanceThread(s, i).value;
            && i < |s.threads| <= |s'.threads| && Agrees(s'.threads[i], s'.tick, asked)
            && (forall j | 0 <= j < |s.threads| && j != i :: s'.threads[j] == s.threads[j])
            && forall j | |s.threads| <= j < |s'.threads| :: Agrees(s'.threads[j], s'.tick, asked)
  {
  }

  lemma {:induction false} AdvanceAgrees(s: State, i: nat, asked: int)
    requires Inv(s) && TickersOk(s) && AllAgree(s, asked) && i < |s.threads| && AdvanceThread(s, i).Some?
    ensures AllAgree(AdvanceThread(s, i).value, asked)
  {
    assert Agrees(s.threads[i], s.tick, asked) && TickerOk(s.timer, s.stopper, s.threads[i]);
    if Right(s.threads[i].pc) {
      OwnAgrees(s, i, asked);
      OthersAgree(s, AdvanceThread(s, i).value, i, asked);
    } else {
      LeaverAgrees(s, i, asked);
    }
  }

  lemma {:induction false} StepAgrees(s: State, a: Action, asked: int)
    requires Inv(s) && TickersOk(s) && AllAgree(s, asked) && NonNegative(a) && Step(s, a).Some?
    ensures AllAgree(Step(s, a).value, AskedNext(asked, a))
  {
    var s' := Step(s, a).value;
    match a
    case Start(_) =>
    case Stop => SameTick(s, s', asked);
    case Outside(_) => SameTick(s, s', asked);
    case Advance(i) => AdvanceAgrees(s, i, asked);
    case _ =>
      assert Agrees(s.threads[a.i], s.tick, asked) && TickerOk(s.timer, s.stopper, s.threads[a.i]);
      OthersAgree(s, s', a.i, AskedNext(asked, a));
  }

  lemma {:induction false} RunAgrees(s: State, run: seq<Action>, asked: int)
    requires Inv(s) && TickersOk(s) && AllAgree(s, asked) && Run(s, run).Some? && forall a | a in run :: NonNegative(a)
    ensures AllAgree(Run(s, run).value, Asked(asked, run)) && TickersOk(Run(s, run).value)
    decreases |run|
  {
    if run != [] {
      InvKept(s, run[0]);
      TickersKept(s, run[0]);
      StepAgrees(s, run[0], asked);
      RunAgrees(Step(s, run[0]).value, run[1..], AskedNext(asked, run[0]));
    }
  }

  /**
   In every run with non-negative intervals: a loop that waits for a tick waits for
   one at the interval asked for last, by Start or by an answer other than zero.
   */
  lemma {:induction false} IntervalHonoured(stopOnError: bool, run: seq<Action>, i: nat)
    requires Run(Initial(stopOnError), run).Some? && forall a | a in run :: NonNegative(a)
    requires At(Run(Initial(stopOnError), run).value, i, Select)
    ensures Run(Initial(stopOnError), run).value.tick == Asked(0, run)
  {
    RunAgrees(Initial(stopOnError), run, 0);
    var s := Run(Initial(stopOnError), run).value;
    assert Agrees(s.threads[i], s.tick, Asked(0, run)) && TickerOk(s.timer, s.stopper, s.threads[i]);
  }

  // ----- errors

  /** Nothing runs the callback again: the last goroutine that could has failed. */
  predicate Failed(s: State) {
    s.started && forall i | 0 <= i < |s.threads| :: Right(s.threads[i].pc) ==> s.threads[i].pc.Fail?
  }

  lemma {:induction false} FailedStays(s: State, run: seq<Action>)
    requires Failed(s) && Run(s, run).Some?
    ensures Failed(Run(s, run).value)
    decreases |run|
  {
    if run != [] {
      FailedStep(s, run[0]);
      FailedStays(Step(s, run[0]).value, run[1..]);
    }
  }

  lemma {:induction false} FailedStep(s: State, a: Action)
    requires Failed(s) && Step(s, a).Some?
    ensures Failed(Step(s, a).value)
  {
    if !a.Start? && !a.Stop? && !a.Outside? {
      assert a.i < |s.threads|;
    }
  }

  /** A timer that stops on errors: after a callback has answered with one, no callback ever runs again. */
  lemma {:induction false} ErrorEnds(run: seq<Action>, i: nat, timeout: int, more: seq<Action>)
    requires Run(Initial(true), run).Some? && Step(Run(Initial(true), run).value, Answer(i, timeout, true)).Some?
    requires Run(Step(Run(Initial(true), run).value, Answer(i, timeout, true)).value, more).Some?
    ensures var s := Run(Step(Run(Initial(true), run).value, Answer(i, timeout, true)).value, more).value;
            forall j | 0 <= j < |s.threads| :: !Open(s.threads[j].pc)
  {
    var s := Run(Initial(true), run).value;
    RunInv(Initial(true), run);
    KeepsStopOnError(Initial(true), run);
    assert s.started;
    var s1 := Step(s, Answer(i, timeout, true)).value;
    forall j | 0 <= j < |s1.threads| && j != i ensures !Right(s1.threads[j].pc) {
      OneRight(s, i, j);
    }
    FailedStays(s1, more);
  }

  lemma {:induction false} KeepsStopOnError(s: State, run: seq<Action>)
    requires Run(s, run).Some?
    ensures Run(s, run).value.stopOnError == s.stopOnError
    decreases |run|
  {
    if run != [] {
      KeepsStopOnError(Step(s, run[0]).value, run[1..]);
    }
  }

  // ----- one invocation at a time

  /** A loop that can call has a positive interval, and one that is about to call finds nothing in flight. */
  predicate CalmThread(t: Thread, tick: int, inflight: int) {
    && (Looping(t) ==> tick > 0)
    && (t.pc.Entering? || (t.pc.Check? && !t.loop) ==> inflight == 0)
  }

  predicate Calm(s: State) {
    s.inflight <= 1 && forall i | 0 <= i < |s.threads| :: CalmThread(s.threads[i], s.tick, s.inflight)
  }

  /** What a goroutine's own step must leave behind. */
  predicate LeavesCalm(s: State, s': State, i: nat)
    requires i < |s.threads|
  {
    && |s.threads| <= |s'.threads| && s'.inflight <= 1 && CalmThread(s'.threads[i], s'.tick, s'.inflight)
    && (forall j | 0 <= j < |s.threads| && j != i :: s'.threads[j] == s.threads[j])
    && forall j | |s.threads| <= j < |s'.threads| :: CalmThread(s'.threads[j], s'.tick, s'.inflight)
  }

  /** After a step of the goroutine with the right, nothing is asked of the others. */
  lemma {:induction false} OthersCalm(s: State, s': State, i: nat)
    requires Inv(s) && i < |s.threads| && Right(s.threads[i].pc) && LeavesCalm(s, s', i)
    ensures Calm(s')
  {
    forall j | 0 <= j < |s'.threads| ensures CalmThread(s'.threads[j], s'.tick, s'.inflight) {
      if j < |s.threads| && j != i {
        OneRight(s, i, j);
      }
    }
  }

  lemma {:induction false} LoopCalm(s: State, i: nat)
    requires i < |s.threads| && AdvanceThread(s, i).Some? && s.inflight <= 1
    requires s.threads[i].pc.Begin? || s.threads[i].pc.Enter? || s.threads[i].pc.Check? || s.threads[i].pc.Entering?
    requires CalmThread(s.threads[i], s.tick, s.inflight) && TickerOk(s.timer, s.stopper, s.threads[i])
    ensures LeavesCalm(s, AdvanceThread(s, i).value, i)
  {
  }

  lemma {:induction false} AnswerCalm(s: State, i: nat)
    requires i < |s.threads| && AdvanceThread(s, i).Some? && Right(s.threads[i].pc) && s.inflight <= 1
    requires s.threads[i].pc.Decide? || s.threads[i].pc.Spawn? || s.threads[i].pc.Fail? || s.threads[i].pc.Return?
    requires CalmThread(s.threads[i], s.tick, s.inflight) && TickerOk(s.timer, s.stopper, s.threads[i])
    ensures LeavesCalm(s, AdvanceThread(s, i).value, i)
  {
  }

  /** Leaving counts one out; nobody who waits for none in flight was disturbed. */
  lemma {:induction false} LeaverCalm(s: State, i: nat)
    requires Inv(s) && Calm(s) && i < |s.threads| && AdvanceThread(s, i).Some? && !Right(s.threads[i].pc)
    ensures Calm(AdvanceThread(s, i).value)
  {
    var s' := AdvanceThread(s, i).value;
    assert s' == Put(s, i, Ended).(inflight := s.inflight - 1);
    BusyCounted(s.threads, i);
    forall j | 0 <= j < |s'.threads| ensures CalmThread(s'.threads[j], s'.tick, s'.inflight) {
      assert CalmThread(s.threads[j], s.tick, s.inflight);
    }
  }

  lemma {:induction false} BusyCounted(ts: seq<Thread>, i: nat)
    requires i < |ts| && Busy(ts[i].pc)
    ensures InFlight(ts) >= 1
    decreases |ts|
  {
    if i > 0 {
      BusyCounted(ts[1..], i - 1);
    }
  }

  lemma {:induction false} ChoiceCalm(s: State, a: Action)
    requires Inv(s) && TickersOk(s) && Calm(s) && Step(s, a).Some?
    requires !a.Start? && !a.Advance? && !a.Stop? && !a.Outside?
    ensures Calm(Step(s, a).value)
  {
    assert CalmThread(s.threads[a.i], s.tick, s.inflight) && TickerOk(s.timer, s.stopper, s.threads[a.i]);
    OthersCalm(s, Step(s, a).value, a.i);
  }

  lemma {:induction false} StepCalm(s: State, a: Action)
    requires Inv(s) && TickersOk(s) && Calm(s) && Step(s, a).Some?
    ensures Calm(Step(s, a).value)
  {
    if a.Advance? {
      assert CalmThread(s.threads[a.i], s.tick, s.inflight) && TickerOk(s.timer, s.stopper, s.threads[a.i]);
      if Right(s.threads[a.i].pc) {
        var pc := s.threads[a.i].pc;
        if pc.Begin? || pc.Enter? || pc.Check? || pc.Entering? {
          LoopCalm(s, a.i);
        } else {
          AnswerCalm(s, a.i);
        }
        OthersCalm(s, Step(s, a).value, a.i);
      } else {
        LeaverCalm(s, a.i);
      }
    } else if !a.Start? && !a.Stop? && !a.Outside? {
      ChoiceCalm(s, a);
    } else if !a.Start? {
      var s' := Step(s, a).value;
      forall j | 0 <= j < |s'.threads| ensures CalmThread(s'.threads[j], s'.tick, s'.inflight) {
        assert CalmThread(s.threads[j], s.tick, s.inflight);
      }
    }
  }

  lemma {:induction false} RunCalm(s: State, run: seq<Action>)
    requires Inv(s) && TickersOk(s) && Calm(s) && Run(s, run).Some? && forall a | a in run :: NonNegative(a)
    ensures Calm(Run(s, run).value)
    decreases |run|
  {
    if run != [] {
      InvKept(s, run[0]);
      TickersKept(s, run[0]);
      StepCalm(s, run[0]);
      RunCalm(Step(s, run[0]).value, run[1..]);
    }
  }

  /**
   In every run with non-negative intervals at most one invocation is in flight, from
   before its callback until it has counted itself out: a tick waits for the one
   before it, or is skipped.
   */
  lemma {:induction false} OneAtATime(stopOnError: bool, run: seq<Action>)
    requires Run(Initial(stopOnError), run).Some? && forall a | a in run :: NonNegative(a)
    ensures InFlight(Run(Initial(stopOnError), run).value.threads) <= 1
  {
    RunCalm(Initial(stopOnError), run);
    RunInv(Initial(stopOnError), run);
  }

  /** Stop waits for a callback that is running when it is called: it gets no further before the callback's answer. */
  lemma {:induction false} StopWaitsForAnswer(s: State, more: seq<Action>, i: nat)
    requires Inv(s) && At(s, i, Callback) && (s.stopper == Idle || s.stopper == Cancelling) && Run(s, more).Some?
    requires forall a | a in more :: !(a.Answer? && a.i == i)
    ensures var s' := Run(s, more).value; At(s', i, Callback) && (s'.stopper == Idle || s'.stopper == Cancelling)
    decreases |more|
  {
    if more != [] {
      InvKept(s, more[0]);
      BusyCounted(s.threads, i);
      assert !(more[0].Answer? && more[0].i == i);
      StillCalling(s, more[0], i);
      StopWaitsForAnswer(Step(s, more[0]).value, more[1..], i);
    }
  }

  lemma {:induction false} StillCalling(s: State, a: Action, i: nat)
    requires At(s, i, Callback) && s.inflight > 0 && (s.stopper == Idle || s.stopper == Cancelling)
    requires Step(s, a).Some? && !(a.Answer? && a.i == i)
    ensures var s' := Step(s, a).value; At(s', i, Callback) && (s'.stopper == Idle || s'.stopper == Cancelling)
  {
    if a.Advance? {
      StillThere(s, a.i, i);
    }
  }

  /** A goroutine's own step leaves the others, and Stop, where they are. */
  lemma {:induction false} StillThere(s: State, j: nat, i: nat)
    requires At(s, i, Callback) && j < |s.threads| && AdvanceThread(s, j).Some?
    ensures At(AdvanceThread(s, j).value, i, Callback) && AdvanceThread(s, j).value.stopper == s.stopper
  {
    var pc := s.threads[j].pc;
    if pc.Begin? || pc.Enter? || pc.Check? || pc.Entering? {
      StillThereInLoop(s, j, i);
    }
  }

  lemma {:induction false} StillThereInLoop(s: State, j: nat, i: nat)
    requires At(s, i, Callback) && j < |s.threads| && AdvanceThread(s, j).Some?
    requires s.threads[j].pc.Begin? || s.threads[j].pc.Enter? || s.threads[j].pc.Check? || s.threads[j].pc.Entering?
    ensures At(AdvanceThread(s, j).value, i, Callback) && AdvanceThread(s, j).value.stopper == s.stopper
  {
  }
}
