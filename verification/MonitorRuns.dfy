/**
 More of whole runs of the monitor service: a failed batch goes first the next time,
 and Stop sends what is left.
 */
module MonitorRuns {
  import opened Common
  import opened Counters
  import opened Monitors

  // ----- a failed batch goes first

  predicate Fails(a: Action) {
    a.SendFails? || a.SendFailsPartly?
  }

  ghost predicate Inside(b: seq<Payload>, all: seq<Payload>) {
    exists i | 0 <= i <= |all| :: b <= all[i..]
  }

  ghost predicate LeadsBatch(b: seq<Payload>, batches: seq<seq<Payload>>) {
    exists k | 0 <= k < |batches| :: b <= batches[k]
  }

  /** The payloads lead the buffer, lead a batch in flight, or were delivered one after the other. */
  ghost predicate Leads(s: Service, b: seq<Payload>) {
    b <= s.eventPayloads || LeadsBatch(b, s.inFlight) || Inside(b, s.delivered)
  }

  lemma {:induction false} InsideGrows(b: seq<Payload>, all: seq<Payload>, more: seq<Payload>)
    requires Inside(b, all)
    ensures Inside(b, all + more)
  {
    var i :| 0 <= i <= |all| && b <= all[i..];
    assert (all + more)[i..] == all[i..] + more;
  }

  lemma {:induction false} InsideLast(b: seq<Payload>, all: seq<Payload>, batch: seq<Payload>)
    requires b <= batch
    ensures Inside(b, all + batch)
  {
    assert (all + batch)[|all|..] == batch;
  }

  lemma {:induction false} LeadsWithout(b: seq<Payload>, batches: seq<seq<Payload>>, k: nat)
    requires k < |batches| && LeadsBatch(b, batches)
    ensures b <= batches[k] || LeadsBatch(b, Without(batches, k))
  {
    var j :| 0 <= j < |batches| && b <= batches[j];
    if j < k {
      assert Without(batches, k)[j] == batches[j];
    } else if j > k {
      assert Without(batches, k)[j - 1] == batches[j];
    }
  }

  lemma {:induction false} LeadsMore(b: seq<Payload>, batches: seq<seq<Payload>>, batch: seq<Payload>)
    requires b <= batch || LeadsBatch(b, batches)
    ensures LeadsBatch(b, batches + [batch])
  {
    if b <= batch {
      assert (batches + [batch])[|batches|] == batch;
    } else {
      var j :| 0 <= j < |batches| && b <= batches[j];
      assert (batches + [batch])[j] == batches[j];
    }
  }

  lemma {:induction false} LeadsStep(s: Service, a: Action, b: seq<Payload>)
    requires Enabled(s, a) && !Fails(a) && Leads(s, b)
    ensures Leads(Next(s, a), b)
  {
    if a.SendSucceeds? {
      if Inside(b, s.delivered) {
        InsideGrows(b, s.delivered, s.inFlight[a.k]);
      } else if !(b <= s.eventPayloads) {
        LeadsWithout(b, s.inFlight, a.k);
        if b <= s.inFlight[a.k] {
          InsideLast(b, s.delivered, s.inFlight[a.k]);
        }
      }
    } else if a.CollectDone? {
      LeadsCollected(s, s.collecting.value, b);
    }
  }

  lemma {:induction false} LeadsCollected(s: Service, c: Collecting, b: seq<Payload>)
    requires Leads(s, b)
    ensures Leads(Collected(s, c), b)
  {
    var buffer := if c.payload == [] then s.eventPayloads else s.eventPayloads + [c.payload];
    if b <= s.eventPayloads {
      assert b <= buffer;
    }
    if b <= buffer || LeadsBatch(b, s.inFlight) {
      LeadsMore(b, s.inFlight, buffer);
    }
  }

  lemma {:induction false} LeadsRun(s: Service, run: seq<Action>, b: seq<Payload>)
    requires Run(s, run).Some? && Leads(s, b) && forall a | a in run :: !Fails(a)
    ensures Leads(Run(s, run).value, b)
    decreases |run|
  {
    if run != [] {
      LeadsStep(s, run[0], b);
      LeadsRun(Next(s, run[0]), run[1..], b);
    }
  }

  /** Once Stop has posted, after a handshake, the buffer stays empty while no send fails. */
  ghost predicate Emptied(s: Service) {
    StopsInOrder(s) && (s.quiet && (s.phase == StopSending || s.phase == Stopped) ==> s.eventPayloads == [])
  }

  lemma {:induction false} EmptiedRun(s: Service, run: seq<Action>)
    requires Run(s, run).Some? && Emptied(s) && forall a | a in run :: !Fails(a)
    ensures Emptied(Run(s, run).value)
    decreases |run|
  {
    if run != [] {
      assert !Fails(run[0]);
      StopsKept(s, run[0]);
      EmptiedRun(Next(s, run[0]), run[1..]);
    }
  }

  /**
   A batch whose send failed leads the buffer, so that it goes out ahead of all that
   was collected since; where no later send fails it stays together to its delivery,
   and once Stop has returned, after a handshake, it has been delivered. Only a batch
   that Stop itself posted is not sent again.
   */
  lemma {:induction false} FailedGoesFirst(s: Service, k: nat, run: seq<Action>)
    requires Enabled(s, SendFails(k)) && StopsInOrder(s) && s.phase != StopSending && s.phase != Stopped
    requires Run(Next(s, SendFails(k)), run).Some? && forall a | a in run :: !Fails(a)
    ensures var s', b := Run(Next(s, SendFails(k)), run).value, s.inFlight[k];
            && b <= Next(s, SendFails(k)).eventPayloads
            && Leads(s', b) && (s'.phase == Stopped && s'.quiet ==> Inside(b, s'.delivered))
  {
    var s1 := Next(s, SendFails(k));
    StopsKept(s, SendFails(k));
    LeadsRun(s1, run, s.inFlight[k]);
    EmptiedRun(s1, run);
  }

  // ----- a tick collects everything, and Stop sends what is left

  /** Of the listed counters those that are cumulative and still hold something are still to be collected. */
  ghost predicate LeftToCollect(s: Service, listed: seq<nat>) {
    forall c | c in listed && c < |s.counters| && s.counters[c].cumulative && s.counters[c].value != 0 ::
      s.collecting.Some? && c in s.collecting.value.todo
  }

  lemma {:induction false} LeftStep(s: Service, a: Action, listed: seq<nat>)
    requires Enabled(s, a) && !a.UpdateCounter? && !a.Tick? && !a.StopCollect? && LeftToCollect(s, listed)
    ensures LeftToCollect(Next(s, a), listed)
  {
    if a.CollectOne? {
      var todo := s.collecting.value.todo;
      CollectKeepsReading(s.counters[todo[0]]);
      assert forall c | c in todo && c != todo[0] :: c in todo[1..];
    }
  }

  lemma {:induction false} LeftWhile(s: Service, run: seq<Action>, listed: seq<nat>)
    requires Run(s, run).Some? && s.collecting.Some? && LeftToCollect(s, listed)
    requires forall a | a in run :: !a.UpdateCounter? && !a.CollectDone?
    ensures Run(s, run).value.collecting.Some? && LeftToCollect(Run(s, run).value, listed)
    decreases |run|
  {
    if run != [] {
      assert !run[0].UpdateCounter? && !run[0].CollectDone?;
      LeftStep(s, run[0], listed);
      LeftWhile(Next(s, run[0]), run[1..], listed);
    }
  }

  /** A tick collects every counter of every monitor: none that is cumulative, and not updated since, holds anything. */
  lemma {:induction false} TickCollectsAll(s: Service, run: seq<Action>)
    requires Enabled(s, Tick) && Run(Next(s, Tick), run).Some? && Enabled(Run(Next(s, Tick), run).value, CollectDone)
    requires forall a | a in run :: !a.UpdateCounter? && !a.CollectDone?
    ensures var s' := Run(Next(s, Tick), run).value;
            forall m, c | 0 <= m < |s.monitors| && c in s.monitors[m] && c < |s'.counters|
                          && s'.counters[c].cumulative ::
              s'.counters[c].value == 0
  {
    var s' := Run(Next(s, Tick), run).value;
    LeftWhile(Next(s, Tick), run, Concat(s.monitors));
    forall m, c | 0 <= m < |s.monitors| && c in s.monitors[m] && c < |s'.counters| && s'.counters[c].cumulative
      ensures s'.counters[c].value == 0
    {
      InConcat(s.monitors, m, c);
    }
  }

  /** Stop's collection has begun, after a handshake. */
  ghost predicate StopHasBegun(s: Service) {
    StopsInOrder(s) && s.quiet && (s.phase == StopCollecting || s.phase == StopSending || s.phase == Stopped)
  }

  lemma {:induction false} LeftRun(s: Service, run: seq<Action>, listed: seq<nat>)
    requires Run(s, run).Some? && StopHasBegun(s) && LeftToCollect(s, listed)
    requires forall a | a in run :: !a.UpdateCounter?
    ensures StopHasBegun(Run(s, run).value) && LeftToCollect(Run(s, run).value, listed)
    decreases |run|
  {
    if run != [] {
      assert !run[0].UpdateCounter?;
      StopsKept(s, run[0]);
      LeftStep(s, run[0], listed);
      LeftRun(Next(s, run[0]), run[1..], listed);
    }
  }

  /**
   Stop, after a handshake, with no send failing and no counter updated from its
   collection on: all that was ever produced has been delivered, and what was
   delivered of each cumulative counter of a monitor adds up to its reading.
   */
  lemma {:induction false} StopSendsAll(s: Service, run: seq<Action>)
    requires Inv(s) && s.quiet && Enabled(s, StopCollect)
    requires Run(Next(s, StopCollect), run).Some? && Run(Next(s, StopCollect), run).value.phase == Stopped
    requires forall a | a in run :: !Fails(a) && !a.UpdateCounter?
    ensures var s' := Run(Next(s, StopCollect), run).value;
            && multiset(s'.delivered) == multiset(s'.produced)
            && forall m, c | 0 <= m < |s.monitors| && c in s.monitors[m] && c < |s'.counters|
                             && s'.counters[c].cumulative ::
                 SumAll(s'.delivered, c) == Get(s'.counters[c])
  {
    var s1 := Next(s, StopCollect);
    InvKept(s, StopCollect);
    RunInv(s1, run);
    EmptiedRun(s1, run);
    LeftRun(s1, run, Concat(s.monitors));
    var s' := Run(s1, run).value;
    forall m, c | 0 <= m < |s.monitors| && c in s.monitors[m] && c < |s'.counters| && s'.counters[c].cumulative
      ensures SumAll(s'.delivered, c) == Get(s'.counters[c])
    {
      InConcat(s.monitors, m, c);
      assert Conserved(s', c);
    }
  }

  lemma {:induction false} InConcat(xss: seq<seq<nat>>, m: nat, x: nat)
    requires m < |xss| && x in xss[m]
    ensures x in Concat(xss)
    decreases |xss|
  {
    if m > 0 {
      InConcat(xss[1..], m - 1, x);
    }
  }
}
