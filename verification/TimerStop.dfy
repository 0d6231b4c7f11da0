/**
 Whether Stop can return. It waits for a timer loop to take its signal, and such a
 loop may be gone, or on its way into a select without a ticker.
 */
module TimerStop {
  import opened Common
  import opened Timer

  /** A goroutine that can still get to where Stop's signal is taken, given the interval and whether a ticker is set. */
  predicate Meets(t: Thread, tick: int, timer: bool) {
    match t.pc
    case Enter => timer
    case Return(exit) => !exit && timer
    case Decide(timeout) => (timeout != 0 && timeout != tick) || (t.loop && timer)
    case Fail => false
    case Ended => false
    case _ => true
  }

  predicate SomeMeets(s: State) {
    exists i | 0 <= i < |s.threads| :: Meets(s.threads[i], s.tick, s.timer)
  }

  /** Stop waits for its signal to be taken, nothing has crashed, and the invariants hold. */
  ghost predicate StopWaits(s: State) {
    Inv(s) && TickersOk(s) && !s.crashed && s.stopper == Sending
  }

  ghost predicate CanReturn(s: State) {
    exists more :: Run(s, more).Some? && Run(s, more).value.stopper == Handshook
  }

  // ----- where no goroutine can meet Stop

  lemma {:induction false} MissStep(s: State, a: Action)
    requires Inv(s) && s.started && s.stopper == Sending && !SomeMeets(s) && Step(s, a).Some?
    ensures var s' := Step(s, a).value; s'.started && s'.stopper == Sending && !SomeMeets(s')
  {
    if a.Advance? {
      assert !Meets(s.threads[a.i], s.tick, s.timer);
      if s.threads[a.i].pc.Fail? {
        forall j | 0 <= j < |s.threads| && j != a.i ensures !Right(s.threads[j].pc) {
          OneRight(s, a.i, j);
        }
      }
    }
  }

  lemma {:induction false} MissRun(s: State, run: seq<Action>)
    requires Inv(s) && s.started && s.stopper == Sending && !SomeMeets(s) && Run(s, run).Some?
    ensures Run(s, run).value.stopper == Sending
    decreases |run|
  {
    if run != [] {
      MissStep(s, run[0]);
      InvKept(s, run[0]);
      MissRun(Step(s, run[0]).value, run[1..]);
    }
  }

  // ----- where one can

  lemma {:induction false} ReturnsNext(s: State, a: Action, s': State)
    requires Step(s, a) == Some(s') && CanReturn(s')
    ensures CanReturn(s)
  {
    var more :| Run(s', more).Some? && Run(s', more).value.stopper == Handshook;
    RunCons(s, a, more);
    assert Run(s, [a] + more).value.stopper == Handshook;
  }

  lemma {:induction false} ReturnsNow(s: State, i: nat)
    requires s.stopper == Sending && !s.crashed && (At(s, i, Select) || At(s, i, CancelWait))
    ensures CanReturn(s)
  {
    var s' := Step(s, Handshake(i)).value;
    assert Run(s', []).value.stopper == Handshook;
    ReturnsNext(s, Handshake(i), s');
  }

  lemma {:induction false} StopGoesOn(s: State, a: Action)
    requires StopWaits(s) && NonNegative(a) && !a.Handshake? && Step(s, a).Some? && !Step(s, a).value.crashed
    ensures StopWaits(Step(s, a).value)
  {
    InvKept(s, a);
    TickersKept(s, a);
  }

  /** How far a goroutine is from meeting Stop. */
  function Away(pc: Pc): nat {
    match pc
    case Select => 0
    case CancelWait => 0
    case Enter => 1
    case Begin(_) => 2
    case Return(_) => 2
    case Spawn(_) => 3
    case Decide(_) => 4
    case Callback => 5
    case Entering => 6
    case Waiting => 7
    case _ => 8
  }

  /** What a goroutine does next on its way; a callback asks for another interval. */
  function Onward(s: State, i: nat): Action
    requires i < |s.threads|
  {
    var pc := s.threads[i].pc;
    if pc.Waiting? then WaitOver(i)
    else if pc.Callback? then Answer(i, if s.tick == 1 then 2 else 1, false)
    else Advance(i)
  }

  ghost predicate Nearer(s: State, i: nat, j: nat)
    requires i < |s.threads|
  {
    var a := Onward(s, i);
    && Step(s, a).Some? && !Step(s, a).value.crashed
    && var s' := Step(s, a).value;
    && j < |s'.threads| && Meets(s'.threads[j], s'.tick, s'.timer)
    && Away(s'.threads[j].pc) < Away(s.threads[i].pc)
  }

  lemma {:induction false} LoopNearer(s: State, i: nat)
    requires StopWaits(s) && i < |s.threads| && Meets(s.threads[i], s.tick, s.timer)
    requires var pc := s.threads[i].pc;
             pc.Begin? || pc.Enter? || pc.Check? || pc.Entering? || pc.Callback? || (pc.Waiting? && s.inflight == 0)
    ensures Nearer(s, i, i)
  {
    assert TickerOk(s.timer, s.stopper, s.threads[i]);
  }

  lemma {:induction false} AnswerNearer(s: State, i: nat)
    requires StopWaits(s) && i < |s.threads| && Meets(s.threads[i], s.tick, s.timer)
    requires s.threads[i].pc.Decide? || s.threads[i].pc.Spawn? || s.threads[i].pc.Return?
    ensures Nearer(s, i, if s.threads[i].pc.Spawn? then |s.threads| else i)
  {
    assert TickerOk(s.timer, s.stopper, s.threads[i]);
  }

  lemma {:induction false} Returns(s: State, i: nat)
    requires StopWaits(s) && i < |s.threads| && Meets(s.threads[i], s.tick, s.timer)
    ensures CanReturn(s)
    decreases Away(s.threads[i].pc), InFlight(s.threads)
  {
    var pc := s.threads[i].pc;
    if pc.Select? || pc.CancelWait? {
      ReturnsNow(s, i);
    } else if pc.Waiting? && s.inflight > 0 {
      LeavesFirst(s, i);
    } else {
      var a, j := Onward(s, i), if pc.Spawn? then |s.threads| else i;
      if pc.Decide? || pc.Spawn? || pc.Return? {
        AnswerNearer(s, i);
      } else {
        LoopNearer(s, i);
      }
      var s' := Step(s, a).value;
      StopGoesOn(s, a);
      Returns(s', j);
      ReturnsNext(s, a, s');
    }
  }

  /** An invocation in flight counts itself out first. */
  lemma {:induction false} LeavesFirst(s: State, i: nat)
    requires StopWaits(s) && i < |s.threads| && s.threads[i].pc.Waiting? && s.inflight > 0
    ensures CanReturn(s)
    decreases Away(Waiting), InFlight(s.threads), 0
  {
    var j := SomeBusy(s.threads);
    OneRight(s, i, j);
    var s' := Step(s, Advance(j)).value;
    StopGoesOn(s, Advance(j));
    CountPut(s.threads, j, s'.threads[j]);
    Returns(s', i);
    ReturnsNext(s, Advance(j), s');
  }

  /**
   In every run with non-negative intervals that has not crashed, where Stop is
   waiting for its signal to be taken: it can return if and only if some goroutine
   can still get to where the signal is taken.
   */
  lemma {:induction false} StopReturnsIff(stopOnError: bool, run: seq<Action>)
    requires (forall a | a in run :: NonNegative(a)) && Run(Initial(stopOnError), run).Some?
    requires var s := Run(Initial(stopOnError), run).value; s.stopper == Sending && !s.crashed
    ensures var s := Run(Initial(stopOnError), run).value;
            (CanReturn(s) <==> SomeMeets(s))
  {
    var s := Run(Initial(stopOnError), run).value;
    RunInv(Initial(stopOnError), run);
    RunTickers(Initial(stopOnError), run);
    SendingStarted(Initial(stopOnError), run);
    if SomeMeets(s) {
      var i :| 0 <= i < |s.threads| && Meets(s.threads[i], s.tick, s.timer);
      Returns(s, i);
    } else {
      forall more | Run(s, more).Some? ensures Run(s, more).value.stopper != Handshook {
        MissRun(s, more);
      }
    }
  }

  /** Stop only sends its signal where a ticker was set, and so after Start. */
  lemma {:induction false} SendingStarted(s: State, run: seq<Action>)
    requires Run(s, run).Some? && StartedIfSet(s)
    ensures StartedIfSet(Run(s, run).value)
    decreases |run|
  {
    if run != [] {
      SendingStarted(Step(s, run[0]).value, run[1..]);
    }
  }

  predicate StartedIfSet(s: State) {
    s.timer || s.stopper == Sending || s.threads != [] ==> s.started
  }

  /** A timer with one loop, started with an interval. */
  function OneLoop(pc: Pc, timeout: int, ctx: Context, stopper: Stopper): State {
    var ticking := !pc.Begin? && stopper != Sending;
    State(true, [Thread(pc, true)], 0, ticking, if pc.Begin? then 0 else timeout, ctx, stopper, false, false)
  }

  lemma {:induction false} LoopMoves(pc: Pc, pc': Pc, timeout: int, ctx: Context, stopper: Stopper)
    requires !pc.Begin? && !pc'.Begin?
    ensures Put(OneLoop(pc, timeout, ctx, stopper), 0, pc') == OneLoop(pc', timeout, ctx, stopper)
  {
    assert [Thread(pc, true)][0 := Thread(pc', true)] == [Thread(pc', true)];
  }

  lemma {:induction false} LoopBegins(timeout: int)
    requires timeout > 0
    ensures Step(Initial(false), Start(timeout)) == Some(OneLoop(Begin(timeout), timeout, Live, Idle))
    ensures Step(OneLoop(Begin(timeout), timeout, Live, Idle), Advance(0)) == Some(OneLoop(Enter, timeout, Live, Idle))
  {
    assert [] + [Thread(Begin(timeout), true)] == [Thread(Begin(timeout), true)];
    assert [Thread(Begin(timeout), true)][0 := Thread(Enter, true)] == [Thread(Enter, true)];
  }

  lemma {:induction false} LoopExpires(timeout: int)
    requires timeout > 0
    ensures Step(OneLoop(Enter, timeout, Live, Idle), Advance(0)) == Some(OneLoop(Select, timeout, Live, Idle))
    ensures Step(OneLoop(Select, timeout, Live, Idle), Outside(Expired))
         == Some(OneLoop(Select, timeout, Expired, Idle))
    ensures Step(OneLoop(Select, timeout, Expired, Idle), Done(0)) == Some(OneLoop(Ended, timeout, Expired, Idle))
  {
    LoopMoves(Enter, Select, timeout, Live, Idle);
    LoopMoves(Select, Ended, timeout, Expired, Idle);
  }

  lemma {:induction false} StopSends(timeout: int)
    ensures Step(OneLoop(Ended, timeout, Expired, Idle), Stop) == Some(OneLoop(Ended, timeout, Expired, Cancelling))
    ensures Step(OneLoop(Ended, timeout, Expired, Cancelling), Stop) == Some(OneLoop(Ended, timeout, Expired, Waited))
    ensures Step(OneLoop(Ended, timeout, Expired, Waited), Stop) == Some(OneLoop(Ended, timeout, Expired, Sending))
  {
  }

  lemma {:induction false} Prepend(s: State, a: Action, s': State, more: seq<Action>, end: State)
    requires Step(s, a) == Some(s') && Run(s', more) == Some(end)
    ensures Run(s, [a] + more) == Some(end)
  {
    RunCons(s, a, more);
  }

  lemma {:induction false} StopRun(timeout: int) returns (run: seq<Action>)
    ensures Run(OneLoop(Ended, timeout, Expired, Idle), run) == Some(OneLoop(Ended, timeout, Expired, Sending))
    ensures forall a | a in run :: NonNegative(a)
  {
    var s6, s7 := OneLoop(Ended, timeout, Expired, Cancelling), OneLoop(Ended, timeout, Expired, Waited);
    var s := OneLoop(Ended, timeout, Expired, Sending);
    StopSends(timeout);
    Prepend(s7, Stop, s, [], s);
    Prepend(s6, Stop, s7, [Stop] + [], s);
    Prepend(OneLoop(Ended, timeout, Expired, Idle), Stop, s6, [Stop] + ([Stop] + []), s);
    run := [Stop] + ([Stop] + ([Stop] + []));
  }

  lemma {:induction false} ExpireRun(timeout: int, more: seq<Action>, end: State) returns (run: seq<Action>)
    requires timeout > 0 && Run(OneLoop(Ended, timeout, Expired, Idle), more) == Some(end)
    requires forall a | a in more :: NonNegative(a)
    ensures Run(OneLoop(Enter, timeout, Live, Idle), run) == Some(end) && forall a | a in run :: NonNegative(a)
  {
    LoopExpires(timeout);
    run := [Done(0)] + more;
    Prepend(OneLoop(Select, timeout, Expired, Idle), Done(0), OneLoop(Ended, timeout, Expired, Idle), more, end);
    Prepend(OneLoop(Select, timeout, Live, Idle), Outside(Expired), OneLoop(Select, timeout, Expired, Idle), run, end);
    run := [Outside(Expired)] + run;
    Prepend(OneLoop(Enter, timeout, Live, Idle), Advance(0), OneLoop(Select, timeout, Live, Idle), run, end);
    run := [Advance(0)] + run;
  }

  /** A timer whose context expired: its loop is gone, its ticker is not, and Stop waits for ever. */
  lemma {:induction false} ExpiredHangs(timeout: int) returns (run: seq<Action>)
    requires timeout > 0
    ensures Run(Initial(false), run).Some?
    ensures var s := Run(Initial(false), run).value; s.stopper == Sending && !s.crashed && !CanReturn(s)
  {
    var s := OneLoop(Ended, timeout, Expired, Sending);
    run := StopRun(timeout);
    run := ExpireRun(timeout, run, s);
    LoopBegins(timeout);
    Prepend(OneLoop(Begin(timeout), timeout, Live, Idle), Advance(0), OneLoop(Enter, timeout, Live, Idle), run, s);
    run := [Advance(0)] + run;
    Prepend(Initial(false), Start(timeout), OneLoop(Begin(timeout), timeout, Live, Idle), run, s);
    run := [Start(timeout)] + run;
    StopReturnsIff(false, run);
  }
}
