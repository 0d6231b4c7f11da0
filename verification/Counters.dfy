/** Counters and the objects of the monitor service that collect them. */
module Counters {
  import opened Common

  datatype CounterState = CounterState(
    cumulative: bool,
    ignoreZeroSnapshots: bool,
    incBy: int,
    value: int,
    cumulativeValue: int)

  function NewState(cumulative: bool, ignoreZeroSnapshots: bool): CounterState {
    CounterState(cumulative, ignoreZeroSnapshots, 1, 0, 0)
  }

  function Get(c: CounterState): int {
    c.value + c.cumulativeValue
  }

  datatype Update = Inc | Add(v: int) | Set(v: int) | SetInc(v: int)

  function Apply(c: CounterState, u: Update): CounterState {
    match u
    case Inc => c.(value := c.value + c.incBy)
    case Add(v) => c.(value := c.value + v)
    case Set(v) => c.(value := if c.cumulative then v - c.cumulativeValue else v)
    case SetInc(v) => c.(incBy := v)
  }

  /** The state after collecting, and the value of the snapshot if one is taken. */
  function Collect(c: CounterState): (CounterState, Option<int>) {
    if !c.ignoreZeroSnapshots || c.value != 0 then
      (if c.cumulative then c.(value := 0, cumulativeValue := c.cumulativeValue + c.value) else c, Some(c.value))
    else (c, None)
  }

  function SnapshotValue(o: Option<int>): int {
    match o
    case Some(v) => v
    case None => 0
  }

  /** Collecting never changes the counter's reading; a cumulative counter hands out exactly what it stops holding. */
  lemma {:induction false} CollectKeepsReading(c: CounterState)
    ensures Get(Collect(c).0) == Get(c)
    ensures c.cumulative ==> Collect(c).0.cumulativeValue == c.cumulativeValue + SnapshotValue(Collect(c).1)
                             && Collect(c).0.value == 0
  {
  }

  class Counter {
    const cumulative: bool
    const ignoreZeroSnapshots: bool
    var incBy: int
    var value: int
    var cumulativeValue: int

    ghost function View(): CounterState
      reads this
    {
      CounterState(cumulative, ignoreZeroSnapshots, incBy, value, cumulativeValue)
    }

    constructor (cumulative: bool, ignoreZeroSnapshots: bool)
      ensures View() == NewState(cumulative, ignoreZeroSnapshots)
    {
      this.cumulative, this.ignoreZeroSnapshots := cumulative, ignoreZeroSnapshots;
      incBy, value, cumulativeValue := 1, 0, 0;
    }

    method DoCollect() returns (snapshot: Option<int>)
      modifies this
      ensures (View(), snapshot) == Collect(old(View()))
    {
      snapshot := None;
      if !ignoreZeroSnapshots || value != 0 {
        snapshot := Some(value);
        if cumulative {
          cumulativeValue := cumulativeValue + value;
          value := 0;
        }
      }
    }

    method DoUpdate(u: Update)
      modifies this
      ensures View() == Apply(old(View()), u)
    {
      match u
      case Inc => value := value + incBy;
      case Add(v) => value := value + v;
      case Set(v) =>
        if cumulative {
          value := v - cumulativeValue;
        } else {
          value := v;
        }
      case SetInc(v) => incBy := v;
    }
  }

  /** A reading after Set is what was set; Inc and Add move it by their amount. */
  lemma {:induction false} ReadingAfter(c: CounterState, u: Update)
    requires c.cumulative || c.cumulativeValue == 0
    ensures Get(Apply(c, u)) == match u
                                case Inc => Get(c) + c.incBy
                                case Add(v) => Get(c) + v
                                case Set(v) => v
                                case SetInc(_) => Get(c)
  {
  }

  // ----- the history of one counter

  datatype CounterOp = Do(u: Update) | Snap

  /** What was told to a counter: its reading, and what Inc adds. */
  function Told(ops: seq<CounterOp>): (int, int) {
    if ops == [] then (0, 1)
    else
      var (reading, step) := Told(ops[..|ops| - 1]);
      match ops[|ops| - 1]
      case Snap => (reading, step)
      case Do(Inc) => (reading + step, step)
      case Do(Add(v)) => (reading + v, step)
      case Do(Set(v)) => (v, step)
      case Do(SetInc(v)) => (reading, v)
  }

  /** The counter after some operations, and the snapshots taken. */
  function History(c: CounterState, ops: seq<CounterOp>): (CounterState, seq<int>) {
    if ops == [] then (c, [])
    else
      var (c1, snaps) := History(c, ops[..|ops| - 1]);
      match ops[|ops| - 1]
      case Do(u) => (Apply(c1, u), snaps)
      case Snap =>
        var (c2, v) := Collect(c1);
        (c2, if v.Some? then snaps + [v.value] else snaps)
  }

  function Total(xs: seq<int>): int {
    if xs == [] then 0 else Total(xs[..|xs| - 1]) + xs[|xs| - 1]
  }

  lemma {:induction false} TotalMore(xs: seq<int>, x: int)
    ensures Total(xs + [x]) == Total(xs) + x
  {
    DropLast(xs, x);
  }

  /** A counter holds its reading, less what a cumulative one has handed out. */
  lemma {:induction false} HistoryHolds(cumulative: bool, ignoreZero: bool, ops: seq<CounterOp>)
    ensures var (c, snaps) := History(NewState(cumulative, ignoreZero), ops);
            && c.cumulative == cumulative && c.ignoreZeroSnapshots == ignoreZero
            && (c.value + c.cumulativeValue, c.incBy) == Told(ops)
            && c.cumulativeValue == if cumulative then Total(snaps) else 0
    decreases |ops|
  {
    if ops != [] {
      HistoryHolds(cumulative, ignoreZero, ops[..|ops| - 1]);
      var (c1, snaps) := History(NewState(cumulative, ignoreZero), ops[..|ops| - 1]);
      if ops[|ops| - 1].Snap? && Collect(c1).1.Some? {
        TotalMore(snaps, Collect(c1).1.value);
      }
    }
  }

  /**
   After any history a snapshot tells the reading, or for a cumulative counter by how
   much the reading has moved since the snapshots before; it is left out exactly if
   that is zero and zeros are to be ignored.
   */
  lemma {:induction false} SnapshotTells(cumulative: bool, ignoreZero: bool, ops: seq<CounterOp>)
    ensures var snaps := History(NewState(cumulative, ignoreZero), ops).1;
            var moved := if cumulative then Told(ops).0 - Total(snaps) else Told(ops).0;
            History(NewState(cumulative, ignoreZero), ops + [Snap]).1
            == if ignoreZero && moved == 0 then snaps else snaps + [moved]
  {
    HistoryHolds(cumulative, ignoreZero, ops);
    DropLast(ops, Snap);
  }

  // ----- collecting a monitor's counters

  datatype Snapshot<K> = Snapshot(counter: K, value: int)

  /** Collects the counters of a list in order; one listed twice is collected twice. */
  function CollectList<K>(cs: map<K, CounterState>, list: seq<K>): (map<K, CounterState>, seq<Snapshot<K>>)
    requires forall k | k in list :: k in cs
  {
    if list == [] then (cs, [])
    else
      var last := list[|list| - 1];
      var (cs1, snaps) := CollectList(cs, list[..|list| - 1]);
      if last !in cs1 then (cs1, snaps)
      else
        var (c', v) := Collect(cs1[last]);
        (cs1[last := c'], if v.None? then snaps else snaps + [Snapshot(last, v.value)])
  }

  lemma {:induction false} CollectListKeys<K>(cs: map<K, CounterState>, list: seq<K>)
    requires forall k | k in list :: k in cs
    ensures CollectList(cs, list).0.Keys == cs.Keys
    decreases |list|
  {
    if list != [] {
      CollectListKeys(cs, list[..|list| - 1]);
    }
  }

  function SumFor<K(==)>(snaps: seq<Snapshot<K>>, k: K): int {
    if snaps == [] then 0
    else SumFor(snaps[..|snaps| - 1], k)
         + if snaps[|snaps| - 1].counter == k then snaps[|snaps| - 1].value else 0
  }

  /** What a cumulative counter's snapshots hold is what moved into its cumulative value, however often it is listed. */
  lemma {:induction false} CollectListConserves<K>(cs: map<K, CounterState>, list: seq<K>, k: K)
    requires forall x | x in list :: x in cs
    requires k in cs && cs[k].cumulative
    ensures k in CollectList(cs, list).0
    ensures var (cs', snaps) := CollectList(cs, list);
            && cs'[k].cumulative
            && cs'[k].cumulativeValue == cs[k].cumulativeValue + SumFor(snaps, k)
            && Get(cs'[k]) == Get(cs[k])
    decreases |list|
  {
    CollectListKeys(cs, list);
    if list != [] {
      var last := list[|list| - 1];
      var front := list[..|list| - 1];
      CollectListKeys(cs, front);
      CollectListConserves(cs, front, k);
      var (cs1, snaps) := CollectList(cs, front);
      CollectKeepsReading(cs1[last]);
      var v := Collect(cs1[last]).1;
      if v.Some? {
        var s := Snapshot(last, v.value);
        assert (snaps + [s])[..|snaps|] == snaps;
      }
    }
  }

  // ----- DeleteCounter

  /** The position of the last occurrence, or -1. */
  function LastIndex<K(==)>(xs: seq<K>, x: K): (i: int)
    ensures -1 <= i < |xs|
    ensures i >= 0 ==> xs[i] == x
    ensures forall j | i < j < |xs| :: xs[j] != x
  {
    if xs == [] then -1
    else if xs[|xs| - 1] == x then |xs| - 1
    else LastIndex(xs[..|xs| - 1], x)
  }

  /** DeleteCounter shortens the list by one whether or not the counter is in it. */
  function Deleted<K(==)>(xs: seq<K>, x: K): Outcome<seq<K>> {
    var i := LastIndex(xs, x);
    if xs == [] then Panic
    else if i < 0 then Ok(xs[..|xs| - 1])
    else Ok(xs[..i] + xs[i + 1..])
  }

  lemma {:induction false} LastIndexIs<K>(xs: seq<K>, x: K, i: nat)
    requires i < |xs| && xs[i] == x && forall j | i < j < |xs| :: xs[j] != x
    ensures LastIndex(xs, x) == i
  {
  }

  /** DeleteCounter takes exactly the counter out exactly when it is there. */
  lemma {:induction false} DeletesOnlyItIff<K>(xs: seq<K>, x: K)
    requires xs != []
    ensures multiset(Deleted(xs, x).value) + multiset{x} == multiset(xs) <==> x in xs
  {
    var i := LastIndex(xs, x);
    if i >= 0 {
      WithoutMultiset(xs, i);
    } else {
      assert x !in xs;
      assert x !in multiset(xs);
    }
  }

  // ----- the objects that collect

  class Monitor {
    var counters: seq<Counter>

    constructor ()
      ensures counters == []
    {
      counters := [];
    }

    method AddCounter(counter: Counter)
      modifies this
      ensures counters == old(counters) + [counter]
    {
      counters := counters + [counter];
    }

    /** false where the Go code panics: an empty list cannot be shortened. */
    method DeleteCounter(counter: Counter) returns (ok: bool)
      modifies this
      ensures match Deleted(old(counters), counter)
              case Ok(xs) => ok && counters == xs
              case _ => !ok && counters == old(counters)
    {
      var j := |counters| - 1;
      var i := j;
      while i >= 0
        invariant -1 <= i <= j
        invariant counters == old(counters)
        invariant forall k | i < k <= j :: counters[k] != counter
      {
        if counters[i] == counter {
          LastIndexIs(counters, counter, i);
          counters := counters[..i] + counters[i + 1..] + [counters[j]];
          break;
        }
        i := i - 1;
      }
      if j < 0 {
        return false;
      }
      counters := counters[..j];
      ok := true;
    }
  }

  /** The states of a set of counters. */
  ghost function States(cs: set<Counter>): map<Counter, CounterState>
    reads cs
  {
    map c | c in cs :: c.View()
  }

  /** collectEvents for one monitor: its counters are collected in order, each in its current state. */
  method CollectMonitor(list: seq<Counter>, ghost all: set<Counter>) returns (snaps: seq<Snapshot<Counter>>)
    requires forall c | c in list :: c in all
    modifies all
    ensures (States(all), snaps) == CollectList(old(States(all)), list)
  {
    snaps := [];
    for i := 0 to |list|
      invariant (States(all), snaps) == CollectList(old(States(all)), list[..i])
    {
      var c := list[i];
      assert list[..i + 1][..i] == list[..i];
      ghost var before := States(all);
      var v := c.DoCollect();
      assert States(all) == before[c := Collect(before[c]).0];
      if v.Some? {
        snaps := snaps + [Snapshot(c, v.value)];
      }
    }
    assert list[..|list|] == list;
  }

  predicate Known<K>(cs: map<K, CounterState>, list: seq<K>) {
    forall k | k in list :: k in cs
  }

  /** The snapshots of every monitor that has counters, one list a monitor. */
  function CollectAll<K>(cs: map<K, CounterState>, monitors: seq<seq<K>>)
    : (r: (map<K, CounterState>, seq<seq<Snapshot<K>>>))
    requires forall i | 0 <= i < |monitors| :: Known(cs, monitors[i])
    ensures r.0.Keys == cs.Keys
    decreases |monitors|
  {
    if monitors == [] then (cs, [])
    else
      var (cs1, payload) := CollectAll(cs, monitors[..|monitors| - 1]);
      var m := monitors[|monitors| - 1];
      assert Known(cs, m);
      if m == [] then (cs1, payload)
      else
        CollectListKeys(cs1, m);
        var (cs2, snaps) := CollectList(cs1, m);
        (cs2, payload + [snaps])
  }

  ghost function Lists(monitors: seq<Monitor>): (lists: seq<seq<Counter>>)
    reads monitors
    ensures |lists| == |monitors| && forall i | 0 <= i < |monitors| :: lists[i] == monitors[i].counters
  {
    if monitors == [] then [] else [monitors[0].counters] + Lists(monitors[1..])
  }

  ghost predicate Within(lists: seq<seq<Counter>>, all: set<Counter>) {
    forall i | 0 <= i < |lists| :: forall c | c in lists[i] :: c in all
  }

  predicate SomeSnapshot<K(==)>(payload: seq<seq<Snapshot<K>>>) {
    exists i | 0 <= i < |payload| :: payload[i] != []
  }

  lemma {:induction false} SomeSnapshotAdded<K>(payload: seq<seq<Snapshot<K>>>, snaps: seq<Snapshot<K>>)
    ensures SomeSnapshot(payload + [snaps]) <==> SomeSnapshot(payload) || snaps != []
  {
    var all := payload + [snaps];
    if SomeSnapshot(payload) {
      var i :| 0 <= i < |payload| && payload[i] != [];
      assert all[i] != [];
    }
    if snaps != [] {
      assert all[|payload|] != [];
    }
  }

  /** CollectAll one monitor further. */
  lemma {:induction false} CollectOneMore<K>(cs: map<K, CounterState>, lists: seq<seq<K>>, i: nat)
    requires i < |lists| && forall j | 0 <= j < |lists| :: Known(cs, lists[j])
    ensures Known(CollectAll(cs, lists[..i]).0, lists[i])
    ensures var (cs1, payload) := CollectAll(cs, lists[..i]);
            var (cs2, snaps) := CollectList(cs1, lists[i]);
            CollectAll(cs, lists[..i + 1]) == if lists[i] == [] then (cs1, payload) else (cs2, payload + [snaps])
  {
    assert lists[..i + 1][..i] == lists[..i];
    assert Known(cs, lists[i]);
  }

  /** collectEvents: a payload, and whether it holds any snapshot and so is to be kept. */
  method CollectEvents(monitors: seq<Monitor>, ghost all: set<Counter>)
    returns (payload: seq<seq<Snapshot<Counter>>>, addPayload: bool)
    requires Within(Lists(monitors), all)
    modifies all
    ensures forall i | 0 <= i < |monitors| :: Known(old(States(all)), Lists(monitors)[i])
    ensures (States(all), payload) == CollectAll(old(States(all)), Lists(monitors))
    ensures addPayload <==> SomeSnapshot(payload)
  {
    payload, addPayload := [], false;
    ghost var lists, states := Lists(monitors), States(all);
    assert forall i | 0 <= i < |lists| :: Known(states, lists[i]);
    for i := 0 to |monitors|
      invariant Lists(monitors) == lists
      invariant (States(all), payload) == CollectAll(states, lists[..i])
      invariant addPayload <==> SomeSnapshot(payload)
    {
      CollectOneMore(states, lists, i);
      assert lists[i] == monitors[i].counters;
      if |monitors[i].counters| > 0 {
        var snaps := CollectMonitor(monitors[i].counters, all);
        SomeSnapshotAdded(payload, snaps);
        payload := payload + [snaps];
        addPayload := addPayload || |snaps| > 0;
      }
    }
    assert lists[..|monitors|] == lists;
  }
}
