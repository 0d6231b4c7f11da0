/**
 The monitor service as a transition system: counters are updated, collected,
 batched, sent asynchronously, and put back when a send fails, in any interleaving.
 */
module Monitors {
  import opened Common
  import opened Counters

  /** A collected snapshot of every monitor, flattened. */
  type Payload = seq<Snapshot<nat>>

  /** A collection under way, holding the service lock: the counters still to visit and what was collected so far. */
  datatype Collecting = Collecting(todo: seq<nat>, payload: Payload, stopping: bool)

  /** How far Stop has come. */
  datatype Phase = Ticking | StopWaiting | StopWaited | StopCollecting | StopSending | Stopped

  /** quiet says that the timer's Stop has made its handshake, so that no tick follows. */
  datatype Service = Service(
    collectCount: int,
    sendCountdown: int,
    counters: seq<CounterState>,
    monitors: seq<seq<nat>>,
    eventPayloads: seq<Payload>,
    inFlight: seq<seq<Payload>>,
    delivered: seq<Payload>,
    produced: seq<Payload>,
    collecting: Option<Collecting>,
    phase: Phase,
    quiet: bool,
    collections: nat,
    posts: nat)

  /** A service that publishes after every collectCount collections; a negative buffer size panics. */
  function NewService(collectCount: int, counters: seq<CounterState>): Outcome<Service> {
    if collectCount < 0 then Panic
    else Ok(Service(collectCount - 1, collectCount - 1, counters, [], [], [], [], [], None, Ticking, false, 0, 0))
  }

  datatype Action =
    | UpdateCounter(c: nat, u: Update)
    | NewMonitor
    | AddCounter(m: nat, c: nat)
    | DeleteCounter(m: nat, c: nat)
    | Tick
    | CollectOne
    | CollectDone
    | SendSucceeds(k: nat)
    | SendFails(k: nat)
    | SendFailsPartly(k: nat, accepted: seq<Payload>, rejected: seq<Payload>)
    | StopTimer(handshake: bool)
    | StopWait
    | StopCollect
    | StopDone

  predicate Enabled(s: Service, a: Action) {
    match a
    case UpdateCounter(c, _) => c < |s.counters|
    case NewMonitor => s.collecting.None?
    case AddCounter(m, c) => s.collecting.None? && m < |s.monitors| && c < |s.counters|
    case DeleteCounter(m, c) => s.collecting.None? && m < |s.monitors| && s.monitors[m] != []
    case Tick => s.collecting.None? && !s.quiet
    case CollectOne => s.collecting.Some? && s.collecting.value.todo != [] && s.collecting.value.todo[0] < |s.counters|
    case CollectDone => s.collecting.Some? && s.collecting.value.todo == []
    case SendSucceeds(k) => k < |s.inFlight|
    case SendFails(k) => s.collecting.None? && k < |s.inFlight| && s.inFlight[k] != []
    case SendFailsPartly(k, accepted, rejected) =>
      && s.collecting.None? && k < |s.inFlight| && rejected != []
      && multiset(accepted) + multiset(rejected) == multiset(s.inFlight[k])
    case StopTimer(handshake) => s.phase == Ticking && (handshake ==> s.collecting.None?)
    case StopWait => s.phase == StopWaiting && s.inFlight == []
    case StopCollect => s.phase == StopWaited && s.collecting.None?
    case StopDone => s.phase == StopSending && s.inFlight == []
  }

  function Concat(xss: seq<seq<nat>>): seq<nat> {
    if xss == [] then [] else xss[0] + Concat(xss[1..])
  }

  /** postEvents: the buffer becomes a batch on its way to the sender. */
  function Post(s: Service): Service {
    s.(eventPayloads := [], inFlight := s.inFlight + [s.eventPayloads])
  }

  /** The end of collectEvents and, for a timer tick, the countdown that decides whether to post. */
  function Collected(s: Service, c: Collecting): Service {
    var s1 := if c.payload == [] then s.(collecting := None)
              else s.(collecting := None, eventPayloads := s.eventPayloads + [c.payload],
                      produced := s.produced + [c.payload]);
    if c.stopping then Post(s1).(phase := StopSending)
    else if s.sendCountdown == 0 then
      Post(s1).(sendCountdown := s.collectCount, collections := s.collections + 1, posts := s.posts + 1)
    else s1.(sendCountdown := s.sendCountdown - 1, collections := s.collections + 1)
  }

  function Next(s: Service, a: Action): Service
    requires Enabled(s, a)
  {
    match a
    case UpdateCounter(c, u) => s.(counters := s.counters[c := Apply(s.counters[c], u)])
    case NewMonitor => s.(monitors := s.monitors + [[]])
    case AddCounter(m, c) => s.(monitors := s.monitors[m := s.monitors[m] + [c]])
    case DeleteCounter(m, c) =>
      (match Deleted(s.monitors[m], c)
       case Ok(xs) => s.(monitors := s.monitors[m := xs])
       case _ => s)
    case Tick => s.(collecting := Some(Collecting(Concat(s.monitors), [], false)))
    case CollectOne =>
      var job := s.collecting.value;
      var c := job.todo[0];
      var (state, v) := Collect(s.counters[c]);
      s.(counters := s.counters[c := state],
         collecting := Some(job.(todo := job.todo[1..],
                                 payload := if v.None? then job.payload else job.payload + [Snapshot(c, v.value)])))
    case CollectDone => Collected(s, s.collecting.value)
    case SendSucceeds(k) =>
      s.(inFlight := Without(s.inFlight, k), delivered := s.delivered + s.inFlight[k])
    case SendFails(k) =>
      s.(inFlight := Without(s.inFlight, k), eventPayloads := s.inFlight[k] + s.eventPayloads)
    case SendFailsPartly(k, accepted, rejected) =>
      s.(inFlight := Without(s.inFlight, k), delivered := s.delivered + accepted,
         eventPayloads := rejected + s.eventPayloads)
    case StopTimer(handshake) => s.(phase := StopWaiting, quiet := handshake)
    case StopWait => s.(phase := StopWaited)
    case StopCollect =>
      s.(phase := StopCollecting, collecting := Some(Collecting(Concat(s.monitors), [], true)))
    case StopDone => s.(phase := Stopped)
  }

  // ----- what is held where

  /** The sum of a counter's snapshots over a list of payloads. */
  function SumAll(ps: seq<Payload>, c: nat): int {
    if ps == [] then 0 else SumFor(ps[0], c) + SumAll(ps[1..], c)
  }

  function SumBatches(bs: seq<seq<Payload>>, c: nat): int {
    if bs == [] then 0 else SumAll(bs[0], c) + SumBatches(bs[1..], c)
  }

  function SumCollecting(o: Option<Collecting>, c: nat): int {
    match o
    case None => 0
    case Some(job) => SumFor(job.payload, c)
  }

  /** Everything a counter has ever handed out, wherever it now is. */
  function HandedOut(s: Service, c: nat): int {
    SumAll(s.delivered, c) + SumBatches(s.inFlight, c) + SumAll(s.eventPayloads, c) + SumCollecting(s.collecting, c)
  }

  function BatchPayloads(bs: seq<seq<Payload>>): multiset<Payload> {
    if bs == [] then multiset{} else multiset(bs[0]) + BatchPayloads(bs[1..])
  }

  /** The payloads delivered, in flight and waiting. */
  function AllPayloads(s: Service): multiset<Payload> {
    multiset(s.delivered) + BatchPayloads(s.inFlight) + multiset(s.eventPayloads)
  }

  lemma {:induction false} SumConcat(a: seq<Payload>, b: seq<Payload>, c: nat)
    ensures SumAll(a + b, c) == SumAll(a, c) + SumAll(b, c)
    decreases |a|
  {
    if a == [] {
      assert a + b == b;
    } else {
      assert (a + b)[1..] == a[1..] + b;
      SumConcat(a[1..], b, c);
    }
  }

  lemma {:induction false} SumOne(p: Payload, c: nat)
    ensures SumAll([p], c) == SumFor(p, c)
  {
    assert SumAll([p][1..], c) == 0;
  }

  lemma {:induction false} BatchesConcat(a: seq<seq<Payload>>, b: seq<seq<Payload>>, c: nat)
    ensures SumBatches(a + b, c) == SumBatches(a, c) + SumBatches(b, c)
    ensures BatchPayloads(a + b) == BatchPayloads(a) + BatchPayloads(b)
    decreases |a|
  {
    if a == [] {
      assert a + b == b;
    } else {
      assert (a + b)[1..] == a[1..] + b;
      BatchesConcat(a[1..], b, c);
    }
  }

  lemma {:induction false} BatchesOne(b: seq<Payload>, c: nat)
    ensures SumBatches([b], c) == SumAll(b, c)
    ensures BatchPayloads([b]) == multiset(b)
  {
    assert [b][1..] == [];
    assert SumBatches([b][1..], c) == 0 && BatchPayloads([b][1..]) == multiset{};
  }

  lemma {:induction false} BatchesWithout(bs: seq<seq<Payload>>, k: nat, c: nat)
    requires k < |bs|
    ensures SumBatches(bs, c) == SumBatches(Without(bs, k), c) + SumAll(bs[k], c)
    ensures BatchPayloads(bs) == BatchPayloads(Without(bs, k)) + multiset(bs[k])
  {
    assert bs == bs[..k] + ([bs[k]] + bs[k + 1..]);
    BatchesConcat(bs[..k], [bs[k]] + bs[k + 1..], c);
    BatchesConcat([bs[k]], bs[k + 1..], c);
    BatchesOne(bs[k], c);
    BatchesConcat(bs[..k], bs[k + 1..], c);
  }

  lemma {:induction false} Cancel<T>(a: multiset<T>, b: multiset<T>, x: T)
    requires a + multiset{x} == b + multiset{x}
    ensures a == b
  {
    assert a == (a + multiset{x}) - multiset{x};
    assert b == (b + multiset{x}) - multiset{x};
  }

  /** The sum does not depend on the order of the payloads. */
  lemma {:induction false} SumOrder(a: seq<Payload>, b: seq<Payload>, c: nat)
    requires multiset(a) == multiset(b)
    ensures SumAll(a, c) == SumAll(b, c)
    decreases |a|
  {
    if a == [] {
      assert |multiset(b)| == 0;
    } else {
      assert a == [a[0]] + a[1..];
      assert a[0] in multiset(a) && a[0] in multiset(b);
      var i :| 0 <= i < |b| && b[i] == a[0];
      var b' := Without(b, i);
      assert b == b[..i] + ([b[i]] + b[i + 1..]);
      WithoutMultiset(b, i);
      Cancel(multiset(a[1..]), multiset(b'), a[0]);
      SumOrder(a[1..], b', c);
      SumConcat(b[..i], [b[i]] + b[i + 1..], c);
      SumConcat([b[i]], b[i + 1..], c);
      SumConcat(b[..i], b[i + 1..], c);
      SumOne(b[i], c);
    }
  }

  // ----- the invariant

  /** A cumulative counter's snapshots, wherever they are, add up to its cumulative value. */
  ghost predicate Conserved(s: Service, c: nat)
    requires c < |s.counters|
  {
    s.counters[c].cumulative ==> HandedOut(s, c) == s.counters[c].cumulativeValue
  }

  /** Posts happen exactly once every collectCount + 1 collections. */
  ghost predicate OnSchedule(s: Service) {
    s.collectCount >= 0 ==>
      && 0 <= s.sendCountdown <= s.collectCount
      && s.collections == s.posts * (s.collectCount + 1) + (s.collectCount - s.sendCountdown)
  }

  /** Stop collects once more; after a handshake nothing else is collected, and it ends with nothing in flight. */
  ghost predicate StopsInOrder(s: Service) {
    && (s.phase == StopCollecting ==> s.collecting.Some?)
    && (s.collecting.Some? ==> (s.collecting.value.stopping <==> s.phase == StopCollecting))
    && (s.quiet ==> s.phase != Ticking && (s.collecting.Some? ==> s.phase == StopCollecting))
    && (s.quiet && (s.phase == StopWaited || s.phase == Stopped) ==> s.inFlight == [])
  }

  ghost predicate Inv(s: Service) {
    && (forall c | 0 <= c < |s.counters| :: Conserved(s, c))
    && AllPayloads(s) == multiset(s.produced)
    && OnSchedule(s)
    && StopsInOrder(s)
  }

  lemma {:induction false} NewInv(s: Service, collectCount: int, counters: seq<CounterState>)
    requires NewService(collectCount, counters) == Ok(s) && forall c | c in counters :: c.cumulativeValue == 0
    ensures Inv(s)
  {
    forall c | 0 <= c < |counters| ensures Conserved(s, c) {
      assert counters[c] in counters;
    }
  }

  lemma {:induction false} PostKeeps(s: Service, c: nat)
    ensures HandedOut(Post(s), c) == HandedOut(s, c)
    ensures AllPayloads(Post(s)) == AllPayloads(s)
  {
    BatchesConcat(s.inFlight, [s.eventPayloads], c);
    BatchesOne(s.eventPayloads, c);
  }

  lemma {:induction false} CollectedKeeps(s: Service, c: nat)
    requires s.collecting.Some?
    ensures HandedOut(Collected(s, s.collecting.value), c) == HandedOut(s, c)
    ensures AllPayloads(s) == multiset(s.produced)
            ==> AllPayloads(Collected(s, s.collecting.value)) == multiset(Collected(s, s.collecting.value).produced)
  {
    var job := s.collecting.value;
    var s1 := if job.payload == [] then s.(collecting := None)
              else s.(collecting := None, eventPayloads := s.eventPayloads + [job.payload],
                      produced := s.produced + [job.payload]);
    var s2 := Collected(s, job);
    BufferedKeeps(s, s1, c);
    PostKeeps(s1, c);
    HeldAlike(s2, if job.stopping || s.sendCountdown == 0 then Post(s1) else s1, c);
  }

  /** What is held depends on the payload lists only. */
  lemma {:induction false} HeldAlike(a: Service, b: Service, c: nat)
    requires a.delivered == b.delivered && a.inFlight == b.inFlight && a.eventPayloads == b.eventPayloads
             && a.collecting == b.collecting
    ensures HandedOut(a, c) == HandedOut(b, c) && AllPayloads(a) == AllPayloads(b)
  {
  }

  /** Moving the collected payload to the buffer. */
  lemma {:induction false} BufferedKeeps(s: Service, s1: Service, c: nat)
    requires s.collecting.Some?
    requires var payload := s.collecting.value.payload;
             s1 == if payload == [] then s.(collecting := None)
                   else s.(collecting := None, eventPayloads := s.eventPayloads + [payload],
                           produced := s.produced + [payload])
    ensures HandedOut(s1, c) == HandedOut(s, c)
    ensures AllPayloads(s) == multiset(s.produced) ==> AllPayloads(s1) == multiset(s1.produced)
  {
    var payload := s.collecting.value.payload;
    SumConcat(s.eventPayloads, [payload], c);
    SumOne(payload, c);
  }

  lemma {:induction false} PayloadsMoved(delivered: seq<Payload>, waiting: seq<Payload>, batch: seq<Payload>,
                                         accepted: seq<Payload>, rejected: seq<Payload>, c: nat)
    requires multiset(accepted) + multiset(rejected) == multiset(batch)
    ensures SumAll(delivered + accepted, c) + SumAll(rejected + waiting, c)
         == SumAll(delivered, c) + SumAll(batch, c) + SumAll(waiting, c)
    ensures multiset(delivered + accepted) + multiset(rejected + waiting)
         == multiset(delivered) + multiset(batch) + multiset(waiting)
  {
    SumConcat(delivered, accepted, c);
    SumConcat(rejected, waiting, c);
    SumConcat(accepted, rejected, c);
    SumOrder(accepted + rejected, batch, c);
  }

  /** What the sender took of a batch, and what it gave back. */
  function Split(s: Service, a: Action): (seq<Payload>, seq<Payload>)
    requires Enabled(s, a) && (a.SendSucceeds? || a.SendFails? || a.SendFailsPartly?)
  {
    match a
    case SendSucceeds(k) => (s.inFlight[k], [])
    case SendFails(k) => ([], s.inFlight[k])
    case SendFailsPartly(k, accepted, rejected) => (accepted, rejected)
  }

  lemma {:induction false} SendEffect(s: Service, a: Action)
    requires Enabled(s, a) && (a.SendSucceeds? || a.SendFails? || a.SendFailsPartly?)
    ensures var (accepted, rejected) := Split(s, a);
            && multiset(accepted) + multiset(rejected) == multiset(s.inFlight[a.k])
            && Next(s, a) == s.(inFlight := Without(s.inFlight, a.k), delivered := s.delivered + accepted,
                                eventPayloads := rejected + s.eventPayloads)
  {
    assert s.delivered + [] == s.delivered && [] + s.eventPayloads == s.eventPayloads;
  }

  lemma {:induction false} SendKeeps(s: Service, a: Action, c: nat)
    requires Enabled(s, a) && (a.SendSucceeds? || a.SendFails? || a.SendFailsPartly?)
    ensures HandedOut(Next(s, a), c) == HandedOut(s, c)
    ensures AllPayloads(Next(s, a)) == AllPayloads(s)
    ensures match a
            case SendSucceeds(k) => s.inFlight[k] <= Next(s, a).delivered[|s.delivered|..]
            case SendFails(k) => s.inFlight[k] <= Next(s, a).eventPayloads && Next(s, a).delivered == s.delivered
            case SendFailsPartly(_, _, rejected) => rejected <= Next(s, a).eventPayloads
  {
    var (accepted, rejected) := Split(s, a);
    SendEffect(s, a);
    SentKeeps(s, Next(s, a), a.k, accepted, rejected, c);
  }

  lemma {:induction false} SentKeeps(s: Service, s': Service, k: nat, accepted: seq<Payload>, rejected: seq<Payload>,
                                     c: nat)
    requires k < |s.inFlight| && multiset(accepted) + multiset(rejected) == multiset(s.inFlight[k])
    requires s' == s.(inFlight := Without(s.inFlight, k), delivered := s.delivered + accepted,
                      eventPayloads := rejected + s.eventPayloads)
    ensures HandedOut(s', c) == HandedOut(s, c) && AllPayloads(s') == AllPayloads(s)
  {
    var batch := s.inFlight[k];
    BatchesWithout(s.inFlight, k, c);
    PayloadsMoved(s.delivered, s.eventPayloads, batch, accepted, rejected, c);
    Regroup(multiset(s.delivered), multiset(s'.delivered), multiset(s.eventPayloads), multiset(s'.eventPayloads),
            multiset(batch), BatchPayloads(s'.inFlight));
  }

  lemma {:induction false} Regroup<T>(d: multiset<T>, d': multiset<T>, w: multiset<T>, w': multiset<T>,
                                      batch: multiset<T>, rest: multiset<T>)
    requires d' + w' == d + batch + w
    ensures d' + rest + w' == d + (rest + batch) + w
  {
    assert d' + rest + w' == (d' + w') + rest;
  }

  lemma {:induction false} CollectOneKeeps(s: Service, c: nat)
    requires Enabled(s, CollectOne) && c < |s.counters| && Conserved(s, c)
    ensures Conserved(Next(s, CollectOne), c)
  {
    var job := s.collecting.value;
    var x := job.todo[0];
    CollectKeepsReading(s.counters[x]);
    var v := Collect(s.counters[x]).1;
    if v.Some? {
      assert (job.payload + [Snapshot(x, v.value)])[..|job.payload|] == job.payload;
    }
  }

  lemma {:induction false} ConservedKept(s: Service, a: Action, c: nat)
    requires Enabled(s, a) && c < |s.counters| && Conserved(s, c)
    ensures Conserved(Next(s, a), c)
  {
    match a
    case CollectOne => CollectOneKeeps(s, c);
    case CollectDone => CollectedKeeps(s, c);
    case SendSucceeds(_) => SendKeeps(s, a, c);
    case SendFails(_) => SendKeeps(s, a, c);
    case SendFailsPartly(_, _, _) => SendKeeps(s, a, c);
    case _ =>
  }

  lemma {:induction false} CountersKept(s: Service, a: Action)
    requires Enabled(s, a) && forall c | 0 <= c < |s.counters| :: Conserved(s, c)
    ensures |Next(s, a).counters| == |s.counters|
    ensures forall c | 0 <= c < |s.counters| :: Conserved(Next(s, a), c)
  {
    forall c | 0 <= c < |s.counters| ensures Conserved(Next(s, a), c) {
      ConservedKept(s, a, c);
    }
  }

  lemma {:induction false} ScheduleKept(s: Service, a: Action)
    requires Enabled(s, a) && OnSchedule(s)
    ensures OnSchedule(Next(s, a))
  {
    if a.CollectDone? && s.collectCount >= 0 {
      var s' := Next(s, a);
      var n := s.collectCount + 1;
      assert s'.posts == s.posts + 1 ==> s'.posts * n == s.posts * n + n;
    }
  }

  lemma {:induction false} PayloadsKept(s: Service, a: Action)
    requires Enabled(s, a) && AllPayloads(s) == multiset(s.produced)
    ensures AllPayloads(Next(s, a)) == multiset(Next(s, a).produced)
  {
    if a.SendSucceeds? || a.SendFails? || a.SendFailsPartly? {
      SendEffect(s, a);
      SendKeeps(s, a, 0);
    } else if a.CollectDone? {
      CollectedKeeps(s, 0);
    }
  }

  lemma {:induction false} StopsKept(s: Service, a: Action)
    requires Enabled(s, a) && StopsInOrder(s)
    ensures StopsInOrder(Next(s, a))
  {
  }

  lemma {:induction false} InvKept(s: Service, a: Action)
    requires Inv(s) && Enabled(s, a)
    ensures Inv(Next(s, a))
  {
    CountersKept(s, a);
    PayloadsKept(s, a);
    ScheduleKept(s, a);
    StopsKept(s, a);
  }

  function Run(s: Service, run: seq<Action>): Option<Service>
    decreases |run|
  {
    if run == [] then Some(s)
    else if Enabled(s, run[0]) then Run(Next(s, run[0]), run[1..])
    else None
  }

  lemma {:induction false} RunInv(s: Service, run: seq<Action>)
    requires Inv(s) && Run(s, run).Some?
    ensures Inv(Run(s, run).value) && Run(s, run).value.collectCount == s.collectCount
    decreases |run|
  {
    if run != [] {
      InvKept(s, run[0]);
      RunInv(Next(s, run[0]), run[1..]);
    }
  }

  // ----- what is delivered

  /** The payloads the sender took: whole batches it confirmed, and of a partial failure those not in its error list. */
  function Taken(s: Service, run: seq<Action>): seq<Payload>
    requires Run(s, run).Some?
    decreases |run|
  {
    if run == [] then []
    else
      (match run[0]
       case SendSucceeds(k) => s.inFlight[k]
       case SendFailsPartly(_, accepted, _) => accepted
       case _ => [])
      + Taken(Next(s, run[0]), run[1..])
  }

  /** Delivered is exactly what the sender took, in the order in which it did. */
  lemma {:induction false} DeliveredIsTaken(s: Service, run: seq<Action>)
    requires Run(s, run).Some?
    ensures Run(s, run).value.delivered == s.delivered + Taken(s, run)
    decreases |run|
  {
    if run == [] {
      ConcatEmpty(s.delivered);
    } else {
      var s' := Next(s, run[0]);
      DeliveredIsTaken(s', run[1..]);
      match run[0]
      case SendSucceeds(k) => ConcatAssoc(s.delivered, s.inFlight[k], Taken(s', run[1..]));
      case SendFailsPartly(_, accepted, _) => ConcatAssoc(s.delivered, accepted, Taken(s', run[1..]));
      case _ => EmptyConcat(Taken(s', run[1..]));
    }
  }

  lemma {:induction false} NothingTaken(s: Service, run: seq<Action>)
    requires Run(s, run).Some? && forall a | a in run :: !a.SendSucceeds? && !a.SendFailsPartly?
    ensures Taken(s, run) == []
    decreases |run|
  {
    if run != [] {
      NothingTaken(Next(s, run[0]), run[1..]);
    }
  }

  /** From a service that has delivered nothing. */
  lemma {:induction false} TakenOnly(start: Service, run: seq<Action>)
    requires start.delivered == [] && Run(start, run).Some?
    ensures Run(start, run).value.delivered == Taken(start, run)
    ensures (forall a | a in run :: !a.SendSucceeds? && !a.SendFailsPartly?) ==> Taken(start, run) == []
  {
    DeliveredIsTaken(start, run);
    EmptyConcat(Taken(start, run));
    if forall a | a in run :: !a.SendSucceeds? && !a.SendFailsPartly? {
      NothingTaken(start, run);
    }
  }

  /**
   In every run of updates, collections, posts, failures, put-backs and Stop: a
   cumulative counter's delivered, in-flight, buffered and uncollected values add
   up to its reading; what is delivered is what the sender took, and no payload is
   lost or duplicated, so that while no send succeeds, in whole or in part, all are
   in flight or waiting; posts are on schedule; and where the timer's Stop made its
   handshake, Stop ends with nothing in flight.
   */
  lemma {:induction false} MonitorConserves(start: Service, collectCount: int, counters: seq<CounterState>,
                                            run: seq<Action>)
    requires NewService(collectCount, counters) == Ok(start) && Run(start, run).Some?
    requires forall c | c in counters :: c.cumulativeValue == 0
    ensures var s := Run(start, run).value;
            && (forall c | 0 <= c < |s.counters| && s.counters[c].cumulative ::
                  HandedOut(s, c) + s.counters[c].value == Get(s.counters[c]))
            && s.delivered == Taken(start, run)
            && multiset(s.delivered) + BatchPayloads(s.inFlight) + multiset(s.eventPayloads) == multiset(s.produced)
            && ((forall a | a in run :: !a.SendSucceeds? && !a.SendFailsPartly?) ==>
                  BatchPayloads(s.inFlight) + multiset(s.eventPayloads) == multiset(s.produced))
            && (collectCount >= 1 ==> s.posts == s.collections / collectCount)
            && (s.phase == Stopped && s.quiet ==> s.inFlight == [] && s.collecting.None?)
  {
    NewInv(start, collectCount, counters);
    RunInv(start, run);
    var s := Run(start, run).value;
    forall c | 0 <= c < |s.counters| && s.counters[c].cumulative
      ensures HandedOut(s, c) + s.counters[c].value == Get(s.counters[c])
    {
      assert Conserved(s, c);
    }
    TakenOnly(start, run);
    if collectCount >= 1 {
      Quotient(s.collections, s.posts, collectCount, s.collectCount - s.sendCountdown);
    }
  }

  lemma {:induction false} Quotient(n: nat, q: nat, d: nat, r: int)
    requires d > 0 && n == q * d + r && 0 <= r < d
    ensures n / d == q
  {
    var e := n / d;
    assert n == e * d + n % d;
    if e > q {
      Multiple(e, q, d);
    } else if e < q {
      Multiple(q, e, d);
    }
  }

  lemma {:induction false} Multiple(a: nat, b: nat, d: nat)
    requires a > b
    ensures a * d >= b * d + d
  {
    assert a * d - b * d == (a - b) * d;
    assert (a - b) * d >= d by {
      assert (a - b - 1) * d >= 0;
    }
  }

  /** With a collect count below one the countdown never reaches zero and nothing is posted before Stop. */
  lemma {:induction false} NeverPosts(s: Service, run: seq<Action>)
    requires s.collectCount < 0 && s.sendCountdown < 0 && Run(s, run).Some?
    ensures Run(s, run).value.posts == s.posts
    decreases |run|
  {
    if run != [] {
      NeverPosts(Next(s, run[0]), run[1..]);
    }
  }

  // ----- when the return of Stop is final

  /** The counters of the monitors, and those still to be collected, exist. */
  ghost predicate Listed(s: Service) {
    && (forall m | 0 <= m < |s.monitors| :: AllBelow(s.monitors[m], |s.counters|))
    && (s.collecting.Some? ==> AllBelow(s.collecting.value.todo, |s.counters|))
  }

  ghost predicate AllBelow(list: seq<nat>, n: nat) {
    forall k | 0 <= k < |list| :: list[k] < n
  }

  /** Nothing has been collected. */
  ghost predicate NoPayloads(s: Service) {
    && s.eventPayloads == [] && (s.collecting.Some? ==> s.collecting.value.payload == [])
    && forall k | 0 <= k < |s.inFlight| :: s.inFlight[k] == []
  }

  /** What holds of a service in every run, whatever its counters held at the start. */
  ghost predicate Regular(s: Service) {
    && OnSchedule(s) && StopsInOrder(s) && Listed(s)
    && (s.collectCount < 0 ==> s.sendCountdown < 0 && (s.phase != StopSending ==> s.inFlight == []))
    && (s.counters == [] ==> NoPayloads(s))
  }

  lemma {:induction false} ConcatBelow(xss: seq<seq<nat>>, n: nat)
    requires forall m | 0 <= m < |xss| :: AllBelow(xss[m], n)
    ensures AllBelow(Concat(xss), n)
    decreases |xss|
  {
    if xss != [] {
      assert AllBelow(xss[0], n);
      assert forall m | 0 < m < |xss| :: xss[m] == xss[1..][m - 1];
      ConcatBelow(xss[1..], n);
    }
  }

  lemma {:induction false} ListedKept(s: Service, a: Action)
    requires Enabled(s, a) && Listed(s)
    ensures |Next(s, a).counters| == |s.counters| && Listed(Next(s, a))
  {
    if a.Tick? || a.StopCollect? {
      ConcatBelow(s.monitors, |s.counters|);
    } else if a.AddCounter? || a.DeleteCounter? {
      assert AllBelow(s.monitors[a.m], |s.counters|);
    }
  }

  lemma {:induction false} CountdownKept(s: Service, a: Action)
    requires Enabled(s, a) && s.collectCount < 0 && s.sendCountdown < 0 && (s.phase != StopSending ==> s.inFlight == [])
    ensures var s' := Next(s, a); s'.sendCountdown < 0 && (s'.phase != StopSending ==> s'.inFlight == [])
  {
  }

  lemma {:induction false} PartOf<T>(a: seq<T>, b: seq<T>, all: seq<T>)
    requires multiset(a) + multiset(b) == multiset(all)
    ensures |a| + |b| == |all|
  {
    assert |multiset(a) + multiset(b)| == |a| + |b|;
  }

  lemma {:induction false} EmptyKept(s: Service, a: Action)
    requires Enabled(s, a) && Listed(s) && s.counters == [] && NoPayloads(s)
    ensures NoPayloads(Next(s, a))
  {
    if a.SendSucceeds? || a.SendFails? || a.SendFailsPartly? {
      assert s.inFlight[a.k] == [];
      if a.SendFailsPartly? {
        PartOf(a.accepted, a.rejected, s.inFlight[a.k]);
      }
    }
  }

  lemma {:induction false} RegularKept(s: Service, a: Action)
    requires Regular(s) && Enabled(s, a)
    ensures Regular(Next(s, a)) && |Next(s, a).counters| == |s.counters| && Next(s, a).collectCount == s.collectCount
  {
    ScheduleKept(s, a);
    StopsKept(s, a);
    ListedKept(s, a);
    if s.collectCount < 0 {
      CountdownKept(s, a);
    }
    if s.counters == [] {
      EmptyKept(s, a);
    }
  }

  /** Stop's return, and whether the handshake was made, are never undone. */
  lemma {:induction false} RunRegular(s: Service, run: seq<Action>)
    requires Regular(s) && Run(s, run).Some?
    ensures var s' := Run(s, run).value;
            && Regular(s') && |s'.counters| == |s.counters| && s'.collectCount == s.collectCount
            && (s.phase == Stopped ==> s'.phase == Stopped && s'.quiet == s.quiet)
    decreases |run|
  {
    if run != [] {
      RegularKept(s, run[0]);
      RunRegular(Next(s, run[0]), run[1..]);
    }
  }

  /** Some batch in flight holds a payload. */
  ghost predicate Sending(s: Service) {
    exists k | 0 <= k < |s.inFlight| :: s.inFlight[k] != []
  }

  /** Nothing is being sent and nothing will be, however the run goes on. */
  ghost predicate Final(s: Service) {
    forall more | Run(s, more).Some? :: !Sending(Run(s, more).value)
  }

  /** Some way of going on sends a payload. */
  ghost predicate CanSend(s: Service) {
    exists more :: Run(s, more).Some? && Sending(Run(s, more).value)
  }

  lemma {:induction false} RunCons(s: Service, a: Action, more: seq<Action>)
    requires Enabled(s, a)
    ensures Run(s, [a] + more) == Run(Next(s, a), more)
  {
    assert ([a] + more)[1..] == more;
  }

  lemma {:induction false} SendsNow(s: Service)
    requires Sending(s)
    ensures CanSend(s)
  {
    assert Sending(Run(s, []).value);
  }

  lemma {:induction false} SendsNext(s: Service, a: Action)
    requires Enabled(s, a) && CanSend(Next(s, a))
    ensures CanSend(s)
  {
    var s' := Next(s, a);
    var more :| Run(s', more).Some? && Sending(Run(s', more).value);
    RunCons(s, a, more);
    assert Sending(Run(s, [a] + more).value);
  }

  /** Stop has returned without the handshake, and collections are posted in due course. */
  ghost predicate Late(s: Service) {
    Regular(s) && s.phase == Stopped && !s.quiet && s.collectCount >= 0
  }

  lemma {:induction false} LateKept(s: Service, a: Action)
    requires Late(s) && Enabled(s, a)
    ensures Late(Next(s, a)) && |Next(s, a).counters| == |s.counters|
  {
    RegularKept(s, a);
  }

  function Todo(s: Service): nat {
    match s.collecting
    case None => 0
    case Some(job) => |job.todo|
  }

  /** A payload in the buffer, or being collected, is sent when the countdown ends. */
  lemma {:induction false} PayloadSent(s: Service)
    requires Late(s) && (s.eventPayloads != [] || (s.collecting.Some? && s.collecting.value.payload != []))
    ensures CanSend(s)
    decreases s.sendCountdown, s.collecting.None?, Todo(s)
  {
    var a := if s.collecting.None? then Tick else if Todo(s) > 0 then CollectOne else CollectDone;
    LateKept(s, a);
    if a.CollectDone? && s.sendCountdown == 0 {
      var s' := Next(s, a);
      assert s'.inFlight[|s.inFlight|] != [];
      SendsNow(s');
    } else {
      PayloadSent(Next(s, a));
    }
    SendsNext(s, a);
  }

  /** A collection that visits a counter with something to hand out makes a payload. */
  lemma {:induction false} CounterSent(s: Service, c: nat)
    requires Late(s) && s.collecting.Some? && c in s.collecting.value.todo && c < |s.counters|
    requires Collect(s.counters[c]).1.Some?
    ensures CanSend(s)
    decreases Todo(s)
  {
    var todo := s.collecting.value.todo;
    assert todo[0] < |s.counters|;
    var s' := Next(s, CollectOne);
    LateKept(s, CollectOne);
    if s'.collecting.value.payload != [] {
      PayloadSent(s');
    } else {
      assert todo[0] != c;
      assert c in todo[1..];
      CounterSent(s', c);
    }
    SendsNext(s, CollectOne);
  }

  /** A counter added to a new monitor, and updated, is collected by the next tick. */
  lemma {:induction false} IdleSends(s: Service)
    requires Late(s) && s.collecting.None? && s.counters != []
    ensures CanSend(s)
  {
    var m := |s.monitors|;
    var s1 := Next(s, NewMonitor);
    var s2 := Next(s1, AddCounter(m, 0));
    var update := UpdateCounter(0, Add(1 - s.counters[0].value));
    var s3 := Next(s2, update);
    LateKept(s, NewMonitor);
    LateKept(s1, AddCounter(m, 0));
    LateKept(s2, update);
    LateKept(s3, Tick);
    assert s3.monitors[m] == [0];
    InConcat(s3.monitors, m, 0);
    CounterSent(Next(s3, Tick), 0);
    SendsNext(s3, Tick);
    SendsNext(s2, update);
    SendsNext(s1, AddCounter(m, 0));
    SendsNext(s, NewMonitor);
  }

  lemma {:induction false} InConcat(xss: seq<seq<nat>>, m: nat, c: nat)
    requires m < |xss| && c in xss[m]
    ensures c in Concat(xss)
    decreases |xss|
  {
    if m > 0 {
      InConcat(xss[1..], m - 1, c);
    }
  }

  lemma {:induction false} LateSends(s: Service)
    requires Late(s) && s.counters != []
    ensures CanSend(s)
    decreases s.collecting.Some?, Todo(s)
  {
    if s.collecting.None? {
      IdleSends(s);
    } else {
      var a := if Todo(s) > 0 then CollectOne else CollectDone;
      LateKept(s, a);
      LateSends(Next(s, a));
      SendsNext(s, a);
    }
  }

  lemma {:induction false} FinalIff(s: Service)
    requires Regular(s) && s.phase == Stopped
    ensures Final(s) <==> s.quiet || s.collectCount < 0 || s.counters == []
  {
    if s.quiet || s.collectCount < 0 || s.counters == [] {
      forall more | Run(s, more).Some? ensures !Sending(Run(s, more).value) {
        RunRegular(s, more);
      }
    } else {
      LateSends(s);
      var more :| Run(s, more).Some? && Sending(Run(s, more).value);
    }
  }

  /**
   The return of Stop is final, that is nothing is being sent and nothing will be
   however the run goes on, exactly if the timer's Stop made its handshake, or the
   collect count is zero, or there is no counter.
   */
  lemma {:induction false} StopIsFinalIff(start: Service, collectCount: int, counters: seq<CounterState>,
                                          run: seq<Action>)
    requires NewService(collectCount, counters) == Ok(start) && Run(start, run).Some?
    requires Run(start, run).value.phase == Stopped
    ensures var s := Run(start, run).value;
            (Final(s) <==> s.quiet || collectCount == 0 || counters == [])
  {
    RunRegular(start, run);
    FinalIff(Run(start, run).value);
  }

  // ----- a Stop without the timer's handshake

  /** Stop from an idle service, without the handshake. */
  lemma {:induction false} StopsUnquietly(s: Service, more: seq<Action>) returns (run: seq<Action>, s': Service)
    requires s.phase == Ticking && !s.quiet && s.collecting.None? && s.inFlight == [] && s.eventPayloads == []
             && s.monitors == []
    ensures Run(s, run) == Run(s', more) && s' == s.(phase := Stopped)
  {
    var s1 := s.(phase := StopWaiting);
    var s2 := s.(phase := StopWaited);
    var m2;
    m2, s' := StopsEmpty(s2, more);
    var m1 := [StopWait] + m2;
    run := [StopTimer(false)] + m1;
    RunCons(s, StopTimer(false), m1);
    RunCons(s1, StopWait, m2);
  }

  /** The last collection of a service without monitors posts nothing. */
  lemma {:induction false} StopsEmpty(s: Service, more: seq<Action>) returns (run: seq<Action>, s': Service)
    requires s.phase == StopWaited && s.collecting.None? && s.inFlight == [] && s.eventPayloads == []
             && s.monitors == []
    ensures Run(s, run) == Run(s', more) && s' == s.(phase := Stopped)
  {
    var s3 := s.(phase := StopCollecting, collecting := Some(Collecting([], [], true)));
    var s4 := s.(phase := StopSending, inFlight := [[]]);
    var s5 := s.(phase := StopSending);
    s' := s.(phase := Stopped);
    assert Next(s3, CollectDone) == s4;
    assert Without(s4.inFlight, 0) == [] && s4.delivered + [] == s4.delivered;
    var m5 := [StopDone] + more;
    var m4 := [SendSucceeds(0)] + m5;
    var m3 := [CollectDone] + m4;
    run := [StopCollect] + m3;
    RunCons(s, StopCollect, m3);
    RunCons(s3, CollectDone, m4);
    RunCons(s4, SendSucceeds(0), m5);
    RunCons(s5, StopDone, more);
  }

  /** Every service with a counter and a positive collect count can stop so that a payload is sent later. */
  lemma {:induction false} LateTickPosts(start: Service, collectCount: int, counters: seq<CounterState>)
    returns (run: seq<Action>, s: Service)
    requires NewService(collectCount, counters) == Ok(start) && collectCount >= 1 && counters != []
    ensures Run(start, run) == Some(s) && s.phase == Stopped && Sending(s)
  {
    var stopped := start.(phase := Stopped);
    LateSends(stopped);
    var more :| Run(stopped, more).Some? && Sending(Run(stopped, more).value);
    RunRegular(stopped, more);
    run, stopped := StopsUnquietly(start, more);
    s := Run(stopped, more).value;
  }
}
