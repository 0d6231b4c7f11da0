/**
 The execution timer as a transition system: one Start, one Stop, any number of
 timer loops, the caller's context, and a callback that may answer anything.
 */
module Timer {
  import opened Common

  /** Where a goroutine stands in startTimer and invokeCallback. */
  datatype Pc =
    | Begin(timeout: int)    // about to set the ticker
    | Enter                  // about to enter the select
    | Select
    | CancelWait             // context cancelled, waiting for Stop
    | Check                  // start of invokeCallback
    | Waiting                // waiting for an invocation in flight
    | Entering               // about to count itself in flight
    | Callback
    | Decide(timeout: int)
    | Spawn(timeout: int)
    | Fail                   // error under stopOnError
    | Return(exit: bool)     // about to count itself out; exit leaves the loop
    | Ended

  /** A goroutine: a timer loop, or the caller of Start. */
  datatype Thread = Thread(pc: Pc, loop: bool)

  datatype Context = Live | Cancelled | Expired

  datatype Stopper = Idle | Cancelling | Waited | Sending | Handshook | Returned

  /** timer says whether timeoutTimer is set; crashed that a nil ticker was dereferenced. */
  datatype State = State(
    started: bool, threads: seq<Thread>, inflight: int, timer: bool, tick: int,
    ctx: Context, stopper: Stopper, stopOnError: bool, crashed: bool)

  function Initial(stopOnError: bool): State {
    State(false, [], 0, false, 0, Live, Idle, stopOnError, false)
  }

  datatype Action =
    | Start(timeout: int)
    | Advance(i: nat)                              // the goroutine's one next step
    | Tick(i: nat) | Done(i: nat)                  // two branches of the select
    | WaitOver(i: nat) | WaitTimeout(i: nat)
    | Answer(i: nat, timeout: int, error: bool)    // the callback returns
    | Outside(ctx: Context)                        // the caller's context ends
    | Stop
    | Handshake(i: nat)

  function SetTicker(s: State, timeout: int): State {
    if timeout > 0 then s.(timer := true, tick := timeout)
    else if s.timer then s.(timer := false, tick := 0)
    else s
  }

  function Put(s: State, i: nat, pc: Pc): State
    requires i < |s.threads|
  {
    s.(threads := s.threads[i := s.threads[i].(pc := pc)])
  }

  /** invokeCallback returned false: a loop goes on, Start is done. */
  function Resume(t: Thread): Pc {
    if t.loop then Enter else Ended
  }

  function AdvanceThread(s: State, i: nat): Option<State>
    requires i < |s.threads|
  {
    var t := s.threads[i];
    match t.pc
    case Begin(timeout) => Some(SetTicker(Put(s, i, Enter), timeout))
    case Enter => Some(if s.timer then Put(s, i, Select) else s.(crashed := true))
    case Check => Some(Put(s, i, if s.tick > 0 then Waiting else Entering))
    case Entering => Some(Put(s, i, Callback).(inflight := s.inflight + 1))
    case Decide(timeout) =>
      Some(Put(s, i, if timeout == 0 || timeout == s.tick then Return(!t.loop) else Spawn(timeout)))
    case Spawn(timeout) =>
      var s' := Put(s, i, Return(true));
      Some(s'.(threads := s'.threads + [Thread(Begin(timeout), true)]))
    case Fail => Some(SetTicker(Put(s, i, Return(true)), 0))
    case Return(exit) => Some(Put(s, i, if exit then Ended else Enter).(inflight := s.inflight - 1))
    case _ => None
  }

  function AdvanceStop(s: State): Option<State> {
    match s.stopper
    case Idle => Some(s.(stopper := Cancelling, ctx := if s.ctx == Live then Cancelled else s.ctx))
    case Cancelling => if s.inflight == 0 then Some(s.(stopper := Waited)) else None
    case Waited => Some(if s.timer then s.(timer := false, stopper := Sending) else s.(stopper := Returned))
    case _ => None
  }

  predicate At(s: State, i: nat, pc: Pc) {
    i < |s.threads| && s.threads[i].pc == pc
  }

  function Step(s: State, a: Action): Option<State> {
    if s.crashed then None
    else match a
      case Start(timeout) =>
        if s.started then None
        else
          var thread := if timeout == 0 then Thread(Check, false) else Thread(Begin(timeout), true);
          Some(s.(started := true, threads := s.threads + [thread]))
      case Advance(i) => if i < |s.threads| then AdvanceThread(s, i) else None
      case Tick(i) => if At(s, i, Select) then Some(Put(s, i, Check)) else None
      case Done(i) =>
        if At(s, i, Select) && s.ctx != Live then Some(Put(s, i, if s.ctx == Cancelled then CancelWait else Ended))
        else None
      case WaitOver(i) => if At(s, i, Waiting) && s.inflight == 0 then Some(Put(s, i, Entering)) else None
      case WaitTimeout(i) => if At(s, i, Waiting) then Some(Put(s, i, Resume(s.threads[i]))) else None
      case Answer(i, timeout, error) =>
        if At(s, i, Callback) then Some(Put(s, i, if error && s.stopOnError then Fail else Decide(timeout))) else None
      case Outside(ctx) => if s.ctx == Live then Some(s.(ctx := ctx)) else None
      case Stop => AdvanceStop(s)
      case Handshake(i) =>
        if s.stopper == Sending && (At(s, i, Select) || At(s, i, CancelWait))
        then Some(Put(s, i, Ended).(stopper := Handshook)) else None
  }

  function Run(s: State, run: seq<Action>): Option<State>
    decreases |run|
  {
    if run == [] then Some(s)
    else match Step(s, run[0])
      case None => None
      case Some(s') => Run(s', run[1..])
  }

  // ----- the right to run the callback

  /** A goroutine from which the callback can still be run, now or later. */
  predicate Right(pc: Pc) {
    match pc
    case Return(exit) => !exit
    case Ended => false
    case _ => true
  }

  /** A goroutine counted in flight. */
  predicate Busy(pc: Pc) {
    pc.Callback? || pc.Decide? || pc.Spawn? || pc.Fail? || pc.Return?
  }

  function Rights(ts: seq<Thread>): nat {
    if ts == [] then 0 else (if Right(ts[0].pc) then 1 else 0) + Rights(ts[1..])
  }

  function InFlight(ts: seq<Thread>): nat {
    if ts == [] then 0 else (if Busy(ts[0].pc) then 1 else 0) + InFlight(ts[1..])
  }

  lemma {:induction false} CountPut(ts: seq<Thread>, i: nat, t: Thread)
    requires i < |ts|
    ensures Rights(ts[i := t]) == Rights(ts) - (if Right(ts[i].pc) then 1 else 0) + (if Right(t.pc) then 1 else 0)
    ensures InFlight(ts[i := t]) == InFlight(ts) - (if Busy(ts[i].pc) then 1 else 0) + (if Busy(t.pc) then 1 else 0)
    decreases |ts|
  {
    if i == 0 {
      assert ts[i := t][1..] == ts[1..];
    } else {
      assert ts[i := t][1..] == ts[1..][i - 1 := t];
      CountPut(ts[1..], i - 1, t);
    }
  }

  lemma {:induction false} CountAdd(ts: seq<Thread>, t: Thread)
    ensures Rights(ts + [t]) == Rights(ts) + (if Right(t.pc) then 1 else 0)
    ensures InFlight(ts + [t]) == InFlight(ts) + (if Busy(t.pc) then 1 else 0)
    decreases |ts|
  {
    if ts == [] {
      assert ts + [t] == [t];
    } else {
      assert (ts + [t])[1..] == ts[1..] + [t];
      CountAdd(ts[1..], t);
    }
  }

  lemma {:induction false} CountOne(ts: seq<Thread>, i: nat)
    requires i < |ts|
    ensures Right(ts[i].pc) ==> Rights(ts) >= 1
    decreases |ts|
  {
    if i > 0 {
      CountOne(ts[1..], i - 1);
    }
  }

  lemma {:induction false} CountTwo(ts: seq<Thread>, i: nat, j: nat)
    requires i < j < |ts| && Right(ts[i].pc) && Right(ts[j].pc)
    ensures Rights(ts) >= 2
    decreases |ts|
  {
    if i > 0 {
      CountTwo(ts[1..], i - 1, j - 1);
    } else {
      CountOne(ts[1..], j - 1);
    }
  }

  // ----- the invariant

  predicate Inv(s: State) {
    && s.inflight == InFlight(s.threads)
    && (if s.started then Rights(s.threads) <= 1 else s.threads == [])
    && (s.stopper == Handshook ==> s.started && Rights(s.threads) == 0)
  }

  /** A goroutine that moves on without gaining the right keeps the invariant. */
  lemma {:induction false} PutInv(s: State, i: nat, pc: Pc, change: int)
    requires Inv(s) && i < |s.threads| && (Right(pc) ==> Right(s.threads[i].pc))
    requires change == (if Busy(pc) then 1 else 0) - (if Busy(s.threads[i].pc) then 1 else 0)
    ensures Inv(Put(s, i, pc).(inflight := s.inflight + change))
    ensures Right(s.threads[i].pc) && !Right(pc) ==> Rights(Put(s, i, pc).threads) == 0
  {
    CountPut(s.threads, i, s.threads[i].(pc := pc));
  }

  lemma {:induction false} SpawnInv(s: State, i: nat)
    requires Inv(s) && i < |s.threads| && s.threads[i].pc.Spawn?
    ensures Inv(AdvanceThread(s, i).value)
  {
    var s' := Put(s, i, Return(true));
    PutInv(s, i, Return(true), 0);
    CountOne(s.threads, i);
    CountAdd(s'.threads, Thread(Begin(s.threads[i].pc.timeout), true));
  }

  lemma {:induction false} LoopInv(s: State, i: nat)
    requires Inv(s) && i < |s.threads|
    requires s.threads[i].pc.Begin? || s.threads[i].pc.Enter? || s.threads[i].pc.Check?
    ensures Inv(AdvanceThread(s, i).value)
  {
    match s.threads[i].pc
    case Begin(timeout) => PutInv(s, i, Enter, 0);
    case Enter => PutInv(s, i, Select, 0);
    case Check => PutInv(s, i, if s.tick > 0 then Waiting else Entering, 0);
  }

  lemma {:induction false} InvokeInv(s: State, i: nat)
    requires Inv(s) && i < |s.threads| && AdvanceThread(s, i).Some?
    requires s.threads[i].pc.Entering? || s.threads[i].pc.Decide? || s.threads[i].pc.Fail? || s.threads[i].pc.Return?
    ensures Inv(AdvanceThread(s, i).value)
  {
    var t := s.threads[i];
    match t.pc
    case Entering => PutInv(s, i, Callback, 1);
    case Decide(timeout) =>
      PutInv(s, i, if timeout == 0 || timeout == s.tick then Return(!t.loop) else Spawn(timeout), 0);
    case Fail => PutInv(s, i, Return(true), 0);
    case Return(exit) => PutInv(s, i, if exit then Ended else Enter, -1);
  }

  lemma {:induction false} AdvanceInv(s: State, i: nat)
    requires Inv(s) && i < |s.threads| && AdvanceThread(s, i).Some?
    ensures Inv(AdvanceThread(s, i).value)
  {
    var pc := s.threads[i].pc;
    if pc.Spawn? {
      SpawnInv(s, i);
    } else if pc.Begin? || pc.Enter? || pc.Check? {
      LoopInv(s, i);
    } else {
      InvokeInv(s, i);
    }
  }

  /** The steps at which something else decides how a goroutine goes on. */
  lemma {:induction false} ChoiceInv(s: State, a: Action)
    requires Inv(s) && Step(s, a).Some?
    requires a.Tick? || a.Done? || a.WaitOver? || a.WaitTimeout? || a.Answer? || a.Handshake?
    ensures Inv(Step(s, a).value)
  {
    match a
    case Tick(i) => PutInv(s, i, Check, 0);
    case Done(i) => PutInv(s, i, if s.ctx == Cancelled then CancelWait else Ended, 0);
    case WaitOver(i) => PutInv(s, i, Entering, 0);
    case WaitTimeout(i) => PutInv(s, i, Resume(s.threads[i]), 0);
    case Answer(i, timeout, error) => PutInv(s, i, if error && s.stopOnError then Fail else Decide(timeout), 0);
    case Handshake(i) => PutInv(s, i, Ended, 0);
  }

  /** Every step keeps the invariant. */
  lemma {:induction false} InvKept(s: State, a: Action)
    requires Inv(s) && Step(s, a).Some?
    ensures Inv(Step(s, a).value)
  {
    if a.Start? {
      CountAdd(s.threads, if a.timeout == 0 then Thread(Check, false) else Thread(Begin(a.timeout), true));
    } else if a.Advance? {
      AdvanceInv(s, a.i);
    } else if !a.Stop? && !a.Outside? {
      ChoiceInv(s, a);
    }
  }

  lemma {:induction false} RunInv(s: State, run: seq<Action>)
    requires Inv(s) && Run(s, run).Some?
    ensures Inv(Run(s, run).value)
    decreases |run|
  {
    if run != [] {
      InvKept(s, run[0]);
      RunInv(Step(s, run[0]).value, run[1..]);
    }
  }

  // ----- the theorems

  predicate AtMostOne(ts: seq<Thread>) {
    forall i, j | 0 <= i < j < |ts| :: !(Right(ts[i].pc) && Right(ts[j].pc))
  }

  /**
   In every run, at most one goroutine has the right to run the callback, so two
   callbacks never overlap; and the wait group counts exactly the invocations in flight.
   */
  lemma {:induction false} CallbacksNeverOverlap(stopOnError: bool, run: seq<Action>)
    requires Run(Initial(stopOnError), run).Some?
    ensures var s := Run(Initial(stopOnError), run).value;
            AtMostOne(s.threads) && s.inflight == InFlight(s.threads)
  {
    RunInv(Initial(stopOnError), run);
    var ts := Run(Initial(stopOnError), run).value.threads;
    forall i, j | 0 <= i < j < |ts|
      ensures !(Right(ts[i].pc) && Right(ts[j].pc))
    {
      if Right(ts[i].pc) && Right(ts[j].pc) {
        CountTwo(ts, i, j);
      }
    }
  }

  predicate Quiet(ts: seq<Thread>) {
    forall i | 0 <= i < |ts| :: !Right(ts[i].pc)
  }

  lemma {:induction false} HandshookStays(s: State, run: seq<Action>)
    requires s.stopper == Handshook && Run(s, run).Some?
    ensures Run(s, run).value.stopper == Handshook
    decreases |run|
  {
    if run != [] {
      HandshookStays(Step(s, run[0]).value, run[1..]);
    }
  }

  /** Once Stop's handshake is made, no callback is running and none will run, however the run goes on. */
  lemma {:induction false} QuietAfterHandshake(stopOnError: bool, run: seq<Action>, more: seq<Action>)
    requires Run(Initial(stopOnError), run).Some?
    requires Run(Initial(stopOnError), run).value.stopper == Handshook
    requires Run(Run(Initial(stopOnError), run).value, more).Some?
    ensures Quiet(Run(Run(Initial(stopOnError), run).value, more).value.threads)
  {
    var s := Run(Initial(stopOnError), run).value;
    var s' := Run(s, more).value;
    RunInv(Initial(stopOnError), run);
    RunInv(s, more);
    HandshookStays(s, more);
    forall i | 0 <= i < |s'.threads|
      ensures !Right(s'.threads[i].pc)
    {
      CountOne(s'.threads, i);
    }
  }

  /** Without a right left the callback never runs again, whatever Stop did; a skipped handshake is harmless then. */
  lemma {:induction false} QuietStays(s: State, run: seq<Action>)
    requires s.started && Inv(s) && Rights(s.threads) == 0 && Run(s, run).Some?
    ensures Run(s, run).value.started && Rights(Run(s, run).value.threads) == 0
    decreases |run|
  {
    if run != [] {
      var a := run[0];
      InvKept(s, a);
      NoNewRight(s, a);
      QuietStays(Step(s, a).value, run[1..]);
    }
  }

  lemma {:induction false} NoNewRight(s: State, a: Action)
    requires s.started && Inv(s) && Rights(s.threads) == 0 && Step(s, a).Some?
    ensures Step(s, a).value.started && Rights(Step(s, a).value.threads) == 0
  {
    forall i | 0 <= i < |s.threads|
      ensures !Right(s.threads[i].pc)
    {
      CountOne(s.threads, i);
    }
    if a.Advance? {
      CountPut(s.threads, a.i, s.threads[a.i].(pc := Ended));
    }
  }

  // ----- a Stop that skips the handshake

  lemma {:induction false} RunCons(s: State, a: Action, more: seq<Action>)
    requires Step(s, a).Some?
    ensures Run(s, [a] + more) == Run(Step(s, a).value, more)
  {
    assert ([a] + more)[1..] == more;
  }

  function Answered(timeout: int, more: seq<Action>): seq<Action> {
    [Answer(0, timeout, false)] + ([Advance(0)] + ([Advance(0)] + ([Advance(0)] + more)))
  }

  function First(timeout: int, more: seq<Action>): seq<Action> {
    [Start(0)] + ([Advance(0)] + ([Advance(0)] + Answered(timeout, more)))
  }

  /** Start(0) runs the callback, which asks for another interval; a loop is spawned and Start returns. */
  lemma {:induction false} FirstCallback(timeout: int, more: seq<Action>) returns (s: State)
    requires timeout > 0
    ensures Run(Initial(false), First(timeout, more)) == Run(s, more)
    ensures s == State(true, [Thread(Ended, false), Thread(Begin(timeout), true)], 0, false, 0, Live, Idle, false,
                       false)
  {
    var s0 := Initial(false);
    var s1 := s0.(started := true, threads := s0.threads + [Thread(Check, false)]);
    var s2 := Put(s1, 0, Entering);
    var s3 := Put(s2, 0, Callback).(inflight := 1);
    var m2 := Answered(timeout, more);
    RunCons(s0, Start(0), [Advance(0)] + ([Advance(0)] + m2));
    RunCons(s1, Advance(0), [Advance(0)] + m2);
    RunCons(s2, Advance(0), m2);
    s := CallbackAnswers(s3, timeout, more);
  }

  lemma {:induction false} CallbackAnswers(s: State, timeout: int, more: seq<Action>) returns (s': State)
    requires !s.crashed && !s.stopOnError && s.threads == [Thread(Callback, false)] && timeout > 0 == s.tick
    ensures Run(s, Answered(timeout, more)) == Run(s', more)
    ensures s' == s.(threads := [Thread(Ended, false), Thread(Begin(timeout), true)], inflight := s.inflight - 1)
  {
    var s1 := Put(s, 0, Decide(timeout));
    var s2 := Put(s1, 0, Spawn(timeout));
    RunCons(s, Answer(0, timeout, false), [Advance(0)] + ([Advance(0)] + ([Advance(0)] + more)));
    RunCons(s1, Advance(0), [Advance(0)] + ([Advance(0)] + more));
    s' := LoopSpawned(s2, timeout, more);
  }

  lemma {:induction false} LoopSpawned(s: State, timeout: int, more: seq<Action>) returns (s': State)
    requires !s.crashed && s.threads == [Thread(Spawn(timeout), false)]
    ensures Run(s, [Advance(0)] + ([Advance(0)] + more)) == Run(s', more)
    ensures s' == s.(threads := [Thread(Ended, false), Thread(Begin(timeout), true)], inflight := s.inflight - 1)
  {
    var s1 := Put(s, 0, Return(true));
    var s2 := s1.(threads := s1.threads + [Thread(Begin(timeout), true)]);
    s' := Put(s2, 0, Ended).(inflight := s.inflight - 1);
    RunCons(s, Advance(0), [Advance(0)] + more);
    RunCons(s2, Advance(0), more);
    assert s'.threads == [Thread(Ended, false), Thread(Begin(timeout), true)];
  }

  /** Stop skips the handshake, as no ticker is set. */
  lemma {:induction false} SkipHandshake(s: State)
    requires !s.crashed && !s.timer && s.inflight == 0 && s.stopper == Idle && s.ctx == Live
    ensures Run(s, [Stop] + ([Stop] + ([Stop] + []))) == Some(s.(stopper := Returned, ctx := Cancelled))
  {
    var s1 := s.(stopper := Cancelling, ctx := Cancelled);
    RunCons(s, Stop, [Stop] + ([Stop] + []));
    RunCons(s1, Stop, [Stop] + []);
    RunCons(s1.(stopper := Waited), Stop, []);
  }

  /** A loop that has yet to set its ticker runs the callback, Stop or no Stop. */
  lemma {:induction false} LoopFires(s: State, i: nat) returns (run: seq<Action>, s': State)
    requires !s.crashed && s.inflight == 0 && i < |s.threads| && s.threads[i].loop
    requires s.threads[i].pc.Begin? && s.threads[i].pc.timeout > 0
    ensures Run(s, run) == Some(s') && At(s', i, Callback)
  {
    var s1 := Put(s, i, Enter).(timer := true, tick := s.threads[i].pc.timeout);
    var s2 := Put(s1, i, Select);
    var s3 := Put(s2, i, Check);
    var s4 := Put(s3, i, Waiting);
    var s5 := Put(s4, i, Entering);
    s' := Put(s5, i, Callback).(inflight := 1);
    assert Step(s, Advance(i)) == Some(s1) && Step(s1, Advance(i)) == Some(s2);
    assert Step(s2, Tick(i)) == Some(s3) && Step(s3, Advance(i)) == Some(s4);
    assert Step(s4, WaitOver(i)) == Some(s5) && Step(s5, Advance(i)) == Some(s');
    var m5: seq<Action> := [Advance(i)] + [];
    var m4 := [WaitOver(i)] + m5;
    var m3 := [Advance(i)] + m4;
    var m2 := [Tick(i)] + m3;
    var m1 := [Advance(i)] + m2;
    run := [Advance(i)] + m1;
    RunCons(s, Advance(i), m1);
    RunCons(s1, Advance(i), m2);
    RunCons(s2, Tick(i), m3);
    RunCons(s3, Advance(i), m4);
    RunCons(s4, WaitOver(i), m5);
    RunCons(s5, Advance(i), []);
  }

  /**
   Stop during a change of interval: the new loop has not set its ticker, so Stop
   skips the handshake and returns, and the callback runs afterwards.
   */
  lemma {:induction false} SkippedHandshakeFires(timeout: int) returns (run: seq<Action>, more: seq<Action>)
    requires timeout > 0
    ensures var s := Run(Initial(false), run);
            && s.Some? && s.value.stopper == Returned
            && var s' := Run(s.value, more);
            && s'.Some? && At(s'.value, 1, Callback)
  {
    var stops := [Stop] + ([Stop] + ([Stop] + []));
    var mid := FirstCallback(timeout, stops);
    SkipHandshake(mid);
    run := First(timeout, stops);
    var s': State;
    more, s' := LoopFires(mid.(stopper := Returned, ctx := Cancelled), 1);
  }

  // ----- entering the select without a ticker

  /** The caller and the callback ask for no negative interval. */
  predicate NonNegative(a: Action) {
    (a.Start? ==> a.timeout >= 0) && (a.Answer? ==> a.timeout >= 0)
  }

  /** A loop that has set its ticker and may enter the select again. */
  predicate Looping(t: Thread) {
    t.loop && Right(t.pc) && !t.pc.Begin? && !t.pc.CancelWait? && !t.pc.Fail?
  }

  /** A goroutine's pending interval is one that will be set, and a loop has its ticker until Stop takes it. */
  predicate TickerOk(timer: bool, stopper: Stopper, t: Thread) {
    && (t.pc.Begin? || t.pc.Enter? || t.pc.Select? || t.pc == Return(false) ==> t.loop)
    && (Looping(t) ==> timer || stopper == Sending)
    && (t.pc.Begin? || t.pc.Spawn? ==> t.pc.timeout > 0)
    && (t.pc.Decide? ==> t.pc.timeout >= 0)
  }

  predicate TickersOk(s: State) {
    && (forall i | 0 <= i < |s.threads| :: TickerOk(s.timer, s.stopper, s.threads[i]))
    && (s.crashed ==> s.stopper == Sending)
  }

  lemma {:induction false} OneRight(s: State, i: nat, j: nat)
    requires Inv(s) && i < |s.threads| && j < |s.threads| && i != j && Right(s.threads[i].pc)
    ensures !Right(s.threads[j].pc)
  {
    CountOne(s.threads, i);
    if Right(s.threads[j].pc) {
      if i < j {
        CountTwo(s.threads, i, j);
      } else {
        CountTwo(s.threads, j, i);
      }
    }
  }

  lemma {:induction false} OnlyHolder(s: State, i: nat, j: nat)
    requires Inv(s) && i < |s.threads| && j < |s.threads| && i != j && Right(s.threads[i].pc)
    ensures !Looping(s.threads[j])
  {
    OneRight(s, i, j);
  }

  /** A goroutine whose step clears the ticker was the only one that needed it. */
  lemma {:induction false} FailTickers(s: State, i: nat)
    requires Inv(s) && TickersOk(s) && i < |s.threads| && s.threads[i].pc.Fail?
    ensures TickersOk(AdvanceThread(s, i).value)
  {
    var s' := AdvanceThread(s, i).value;
    forall j | 0 <= j < |s'.threads| ensures TickerOk(s'.timer, s'.stopper, s'.threads[j]) {
      if j != i {
        OnlyHolder(s, i, j);
        assert TickerOk(s.timer, s.stopper, s.threads[j]);
      }
    }
  }

  /** The other goroutines are all right where the ticker is kept. */
  lemma {:induction false} TickersAfter(s: State, s': State, i: nat)
    requires TickersOk(s) && i < |s.threads| <= |s'.threads| && s'.stopper == s.stopper
    requires (s.timer ==> s'.timer) && (s'.crashed ==> s'.stopper == Sending)
    requires forall j | 0 <= j < |s.threads| && j != i :: s'.threads[j] == s.threads[j]
    requires TickerOk(s'.timer, s'.stopper, s'.threads[i])
    requires forall j | |s.threads| <= j < |s'.threads| :: TickerOk(s'.timer, s'.stopper, s'.threads[j])
    ensures TickersOk(s')
  {
    forall j | 0 <= j < |s'.threads| ensures TickerOk(s'.timer, s'.stopper, s'.threads[j]) {
      assert j < |s.threads| ==> TickerOk(s.timer, s.stopper, s.threads[j]);
    }
  }

  /** What a goroutine's own step must leave behind. */
  predicate OwnOk(s: State, s': State, i: nat)
    requires i < |s.threads|
  {
    && i < |s'.threads| && TickerOk(s'.timer, s'.stopper, s'.threads[i])
    && (s.timer ==> s'.timer) && s'.stopper == s.stopper && (s'.crashed ==> s'.stopper == Sending)
  }

  lemma {:induction false} LoopTicker(s: State, i: nat)
    requires TickersOk(s) && i < |s.threads|
    requires s.threads[i].pc.Begin? || s.threads[i].pc.Enter? || s.threads[i].pc.Check?
    ensures OwnOk(s, AdvanceThread(s, i).value, i)
  {
    assert TickerOk(s.timer, s.stopper, s.threads[i]);
  }

  lemma {:induction false} InvokeTicker(s: State, i: nat)
    requires TickersOk(s) && i < |s.threads|
    requires s.threads[i].pc.Entering? || s.threads[i].pc.Decide? || s.threads[i].pc.Spawn? || s.threads[i].pc.Return?
    ensures OwnOk(s, AdvanceThread(s, i).value, i)
  {
    assert TickerOk(s.timer, s.stopper, s.threads[i]);
  }

  lemma {:induction false} AdvanceTickers(s: State, i: nat)
    requires Inv(s) && TickersOk(s) && i < |s.threads| && AdvanceThread(s, i).Some?
    ensures TickersOk(AdvanceThread(s, i).value)
  {
    assert TickerOk(s.timer, s.stopper, s.threads[i]);
    if s.threads[i].pc.Fail? {
      FailTickers(s, i);
    } else {
      var pc := s.threads[i].pc;
      if pc.Begin? || pc.Enter? || pc.Check? {
        LoopTicker(s, i);
      } else {
        InvokeTicker(s, i);
      }
      TickersAfter(s, AdvanceThread(s, i).value, i);
    }
  }

  lemma {:induction false} HandshakeTickers(s: State, i: nat)
    requires Inv(s) && TickersOk(s) && Step(s, Handshake(i)).Some?
    ensures TickersOk(Step(s, Handshake(i)).value)
  {
    var s' := Step(s, Handshake(i)).value;
    forall j | 0 <= j < |s'.threads| ensures TickerOk(s'.timer, s'.stopper, s'.threads[j]) {
      if j != i {
        OnlyHolder(s, i, j);
        assert TickerOk(s.timer, s.stopper, s.threads[j]);
      }
    }
  }

  lemma {:induction false} TickersKept(s: State, a: Action)
    requires Inv(s) && TickersOk(s) && NonNegative(a) && Step(s, a).Some?
    ensures TickersOk(Step(s, a).value)
  {
    if a.Advance? {
      AdvanceTickers(s, a.i);
    } else if a.Handshake? {
      HandshakeTickers(s, a.i);
    } else {
      var s' := Step(s, a).value;
      forall j | 0 <= j < |s'.threads| ensures TickerOk(s'.timer, s'.stopper, s'.threads[j]) {
        assert j < |s.threads| ==> TickerOk(s.timer, s.stopper, s.threads[j]);
      }
    }
  }

  lemma {:induction false} RunTickers(s: State, run: seq<Action>)
    requires Inv(s) && TickersOk(s) && (forall a | a in run :: NonNegative(a)) && Run(s, run).Some?
    ensures TickersOk(Run(s, run).value)
    decreases |run|
  {
    if run != [] {
      InvKept(s, run[0]);
      TickersKept(s, run[0]);
      RunTickers(Step(s, run[0]).value, run[1..]);
    }
  }

  /**
   With non-negative intervals the timer never dereferences a missing ticker before
   Stop takes it away. From then on it does so exactly when a loop enters the
   select again while none has been set since.
   */
  lemma {:induction false} CrashIff(stopOnError: bool, run: seq<Action>, a: Action)
    requires (forall x | x in run :: NonNegative(x)) && Run(Initial(stopOnError), run).Some?
    requires !Run(Initial(stopOnError), run).value.crashed
    ensures var s := Run(Initial(stopOnError), run).value;
            (Step(s, a).Some? && Step(s, a).value.crashed
             <==> a.Advance? && At(s, a.i, Enter) && s.stopper == Sending && !s.timer)
  {
    var s := Run(Initial(stopOnError), run).value;
    RunInv(Initial(stopOnError), run);
    RunTickers(Initial(stopOnError), run);
    if a.Advance? && At(s, a.i, Enter) {
      assert TickerOk(s.timer, s.stopper, s.threads[a.i]);
    }
  }

  lemma {:induction false} RunPut(s: State, a: Action, s': State, more: seq<Action>)
    requires Step(s, a) == Some(s')
    ensures Run(s, [a] + more) == Run(s', more)
  {
    RunCons(s, a, more);
  }

  /** Stop takes the ticker from a loop that waits for an invocation in flight; the loop then enters the select. */
  lemma {:induction false} StopWhileWaiting(s: State) returns (run: seq<Action>, s': State)
    requires s.threads == [Thread(Waiting, true)] && !s.crashed && s.timer
    requires s.inflight == 0 && s.stopper == Idle && s.ctx == Live
    ensures Run(s, run) == Some(s') && s'.crashed && s'.stopper == Sending
  {
    var s1 := s.(stopper := Cancelling, ctx := Cancelled);
    var s2 := s1.(stopper := Waited);
    var s3 := s2.(stopper := Sending, timer := false);
    var s4 := Put(s3, 0, Enter);
    s' := s4.(crashed := true);
    var m4: seq<Action> := [Advance(0)] + [];
    var m3 := [WaitTimeout(0)] + m4;
    var m2 := [Stop] + m3;
    var m1 := [Stop] + m2;
    run := [Stop] + m1;
    RunPut(s, Stop, s1, m1);
    RunPut(s1, Stop, s2, m2);
    RunPut(s2, Stop, s3, m3);
    RunPut(s3, WaitTimeout(0), s4, m4);
    RunPut(s4, Advance(0), s', []);
  }

  /** A loop with its ticker set waits for an invocation in flight. */
  lemma {:induction false} LoopWaits(timeout: int, more: seq<Action>) returns (run: seq<Action>, s: State)
    requires timeout > 0
    ensures Run(Initial(false), run) == Run(s, more)
    ensures s == State(true, [Thread(Waiting, true)], 0, true, timeout, Live, Idle, false, false)
  {
    var s0 := Initial(false);
    var s1 := s0.(started := true, threads := s0.threads + [Thread(Begin(timeout), true)]);
    var s2 := Put(s1, 0, Enter).(timer := true, tick := timeout);
    var s3 := Put(s2, 0, Select);
    var s4 := Put(s3, 0, Check);
    s := Put(s4, 0, Waiting);
    var m4 := [Advance(0)] + more;
    var m3 := [Tick(0)] + m4;
    var m2 := [Advance(0)] + m3;
    var m1 := [Advance(0)] + m2;
    run := [Start(timeout)] + m1;
    RunPut(s0, Start(timeout), s1, m1);
    RunPut(s1, Advance(0), s2, m2);
    RunPut(s2, Advance(0), s3, m3);
    RunPut(s3, Tick(0), s4, m4);
    RunPut(s4, Advance(0), s, more);
    assert s.threads == [Thread(Waiting, true)];
  }

  /** One Start with any positive interval and one Stop reach it. */
  lemma {:induction false} CrashReached(timeout: int) returns (run: seq<Action>, s': State)
    requires timeout > 0
    ensures Run(Initial(false), run) == Some(s') && s'.crashed && s'.stopper == Sending
  {
    var waiting := State(true, [Thread(Waiting, true)], 0, true, timeout, Live, Idle, false, false);
    var more: seq<Action>;
    more, s' := StopWhileWaiting(waiting);
    var s: State;
    run, s := LoopWaits(timeout, more);
  }

  /** A negative interval does so at once. */
  lemma {:induction false} NegativeIntervalCrashes(timeout: int)
    requires timeout < 0
    ensures var run := [Start(timeout)] + ([Advance(0)] + ([Advance(0)] + []));
            Run(Initial(false), run).Some? && Run(Initial(false), run).value.crashed
  {
    var s := Initial(false);
    var s1 := s.(started := true, threads := s.threads + [Thread(Begin(timeout), true)]);
    var s2 := Put(s1, 0, Enter);
    RunPut(s, Start(timeout), s1, [Advance(0)] + ([Advance(0)] + []));
    RunPut(s1, Advance(0), s2, [Advance(0)] + []);
    RunPut(s2, Advance(0), s2.(crashed := true), []);
  }

  // ----- when the return of Stop is quiet

  /** A goroutine from which the callback can still be run, given the current interval. */
  predicate MayFire(t: Thread, tick: int) {
    match t.pc
    case CancelWait => false
    case Fail => false
    case Ended => false
    case Return(exit) => !exit
    case Decide(timeout) => t.loop || (timeout != 0 && timeout != tick)
    case _ => true
  }

  predicate SomeMayFire(s: State) {
    exists i | 0 <= i < |s.threads| :: MayFire(s.threads[i], s.tick)
  }

  predicate SomeCallback(s: State) {
    exists i | 0 <= i < |s.threads| :: s.threads[i].pc.Callback?
  }

  /** No callback is running and none will run, however the run goes on. */
  ghost predicate Final(s: State) {
    forall more | Run(s, more).Some? :: !SomeCallback(Run(s, more).value)
  }

  /** Stop has returned, nothing has crashed, and the invariants hold. */
  ghost predicate AfterStop(s: State) {
    Inv(s) && TickersOk(s) && !s.crashed && s.stopper == Returned
  }

  /** A goroutine that may not fire moves to where it may not fire, and the others stay. */
  lemma {:induction false} SilentStep(s: State, a: Action)
    requires Inv(s) && s.stopper == Returned && s.started && !SomeMayFire(s) && Step(s, a).Some?
    ensures var s' := Step(s, a).value; s'.started && s'.stopper == Returned && !s'.crashed && !SomeMayFire(s')
  {
    if a.Advance? && s.threads[a.i].pc.Fail? {
      forall j | 0 <= j < |s.threads| && j != a.i ensures !Right(s.threads[j].pc) {
        OneRight(s, a.i, j);
      }
    }
  }

  lemma {:induction false} SilentRun(s: State, run: seq<Action>)
    requires Inv(s) && s.stopper == Returned && s.started && !SomeMayFire(s) && Run(s, run).Some?
    ensures !SomeCallback(Run(s, run).value)
    decreases |run|
  {
    if run != [] {
      SilentStep(s, run[0]);
      InvKept(s, run[0]);
      SilentRun(Step(s, run[0]).value, run[1..]);
    }
  }

  /** Some way of going on runs the callback. */
  ghost predicate CanFire(s: State) {
    exists more :: Run(s, more).Some? && SomeCallback(Run(s, more).value)
  }

  lemma {:induction false} FiresNow(s: State, i: nat)
    requires At(s, i, Callback)
    ensures CanFire(s)
  {
    assert SomeCallback(Run(s, []).value);
  }

  lemma {:induction false} FiresNext(s: State, a: Action, s': State)
    requires Step(s, a) == Some(s') && CanFire(s')
    ensures CanFire(s)
  {
    var more :| Run(s', more).Some? && SomeCallback(Run(s', more).value);
    RunCons(s, a, more);
    assert SomeCallback(Run(s, [a] + more).value);
  }

  lemma {:induction false} GoesOn(s: State, a: Action)
    requires AfterStop(s) && NonNegative(a) && Step(s, a).Some? && !Step(s, a).value.crashed
    ensures AfterStop(Step(s, a).value)
  {
    InvKept(s, a);
    TickersKept(s, a);
  }

  /** How far a goroutine is from the callback. */
  function Distance(pc: Pc): nat {
    match pc
    case Callback => 0
    case Entering => 1
    case Waiting => 2
    case Check => 3
    case Select => 4
    case Enter => 5
    case Begin(_) => 6
    case Spawn(_) => 7
    case Decide(_) => 8
    case _ => 6
  }

  lemma {:induction false} SomeBusy(ts: seq<Thread>) returns (j: nat)
    requires InFlight(ts) > 0
    ensures j < |ts| && Busy(ts[j].pc)
    decreases |ts|
  {
    if Busy(ts[0].pc) {
      j := 0;
    } else {
      var k := SomeBusy(ts[1..]);
      j := k + 1;
    }
  }

  /** From every goroutine that may fire the callback is reached, once those in flight have counted themselves out. */
  lemma {:induction false} Fires(s: State, i: nat)
    requires AfterStop(s) && i < |s.threads| && MayFire(s.threads[i], s.tick)
    ensures CanFire(s)
    decreases Distance(s.threads[i].pc), InFlight(s.threads)
  {
    var pc := s.threads[i].pc;
    assert TickerOk(s.timer, s.stopper, s.threads[i]);
    if pc.Callback? {
      FiresNow(s, i);
    } else if pc.Waiting? && s.inflight > 0 {
      CountsOut(s, i);
    } else {
      var a := if pc.Waiting? then WaitOver(i) else if pc.Select? then Tick(i) else Advance(i);
      var j := if pc.Spawn? then |s.threads| else i;
      if pc.Decide? || pc.Spawn? || pc.Return? {
        AnswerCloser(s, i);
      } else {
        LoopCloser(s, i, a);
      }
      var s' := Step(s, a).value;
      GoesOn(s, a);
      Fires(s', j);
      FiresNext(s, a, s');
    }
  }

  /** A step that brings a goroutine closer to the callback. */
  ghost predicate Closer(s: State, a: Action, i: nat, j: nat)
    requires i < |s.threads|
  {
    && Step(s, a).Some? && !Step(s, a).value.crashed
    && var s' := Step(s, a).value;
    && j < |s'.threads| && MayFire(s'.threads[j], s'.tick)
    && Distance(s'.threads[j].pc) < Distance(s.threads[i].pc)
  }

  lemma {:induction false} LoopCloser(s: State, i: nat, a: Action)
    requires AfterStop(s) && i < |s.threads|
    requires var pc := s.threads[i].pc;
             && (pc.Begin? || pc.Enter? || pc.Select? || pc.Check? || pc.Entering? || (pc.Waiting? && s.inflight == 0))
             && a == if pc.Waiting? then WaitOver(i) else if pc.Select? then Tick(i) else Advance(i)
    ensures Closer(s, a, i, i)
  {
    assert TickerOk(s.timer, s.stopper, s.threads[i]);
  }

  lemma {:induction false} AnswerCloser(s: State, i: nat)
    requires AfterStop(s) && i < |s.threads| && MayFire(s.threads[i], s.tick)
    requires s.threads[i].pc.Decide? || s.threads[i].pc.Spawn? || s.threads[i].pc.Return?
    ensures Closer(s, Advance(i), i, if s.threads[i].pc.Spawn? then |s.threads| else i)
  {
    assert TickerOk(s.timer, s.stopper, s.threads[i]);
  }

  lemma {:induction false} CountsOut(s: State, i: nat)
    requires AfterStop(s) && i < |s.threads| && s.threads[i].pc.Waiting? && s.inflight > 0
    ensures CanFire(s)
    decreases Distance(Waiting), InFlight(s.threads), 0
  {
    var j := SomeBusy(s.threads);
    OneRight(s, i, j);
    var s' := Step(s, Advance(j)).value;
    GoesOn(s, Advance(j));
    Fires(s', i);
    FiresNext(s, Advance(j), s');
  }

  /** A timer not yet started runs the callback when Start is called with interval 0. */
  lemma {:induction false} StartFires(s: State)
    requires AfterStop(s) && !s.started
    ensures CanFire(s)
  {
    var s' := Step(s, Start(0)).value;
    GoesOn(s, Start(0));
    Fires(s', 0);
    FiresNext(s, Start(0), s');
  }

  lemma {:induction false} FinalIff(s: State)
    requires AfterStop(s)
    ensures Final(s) <==> s.started && !SomeMayFire(s)
  {
    if s.started && !SomeMayFire(s) {
      forall more | Run(s, more).Some? ensures !SomeCallback(Run(s, more).value) {
        SilentRun(s, more);
      }
    } else {
      if s.started {
        var i :| 0 <= i < |s.threads| && MayFire(s.threads[i], s.tick);
        Fires(s, i);
      } else {
        StartFires(s);
      }
      var more :| Run(s, more).Some? && SomeCallback(Run(s, more).value);
    }
  }

  /**
   In every run with non-negative intervals that has not crashed, the return of Stop
   is final, that is no callback is running and none will run however the run goes
   on, exactly if the timer was started and no goroutine may fire.
   */
  lemma {:induction false} QuietReturnIff(stopOnError: bool, run: seq<Action>)
    requires (forall a | a in run :: NonNegative(a)) && Run(Initial(stopOnError), run).Some?
    requires var s := Run(Initial(stopOnError), run).value; s.stopper == Returned && !s.crashed
    ensures var s := Run(Initial(stopOnError), run).value;
            (Final(s) <==> s.started && !SomeMayFire(s))
  {
    RunInv(Initial(stopOnError), run);
    RunTickers(Initial(stopOnError), run);
    FinalIff(Run(Initial(stopOnError), run).value);
  }
}
