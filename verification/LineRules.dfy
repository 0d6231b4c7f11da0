/** What a filter makes of a text, line by line, in terms of the calls that built it. */
module LineRules {
  import opened Common
  import opened LineFilter

  // ----- texts

  /** Lines, each with its newline, and what follows the last newline. */
  function Text(lines: seq<Bytes>, last: Bytes): Bytes {
    if lines == [] then last else lines[0] + [10] + Text(lines[1..], last)
  }

  ghost predicate AllLines(lines: seq<Bytes>) {
    forall i | 0 <= i < |lines| :: IsLine(lines[i])
  }

  /** All data is a text. */
  lemma {:induction false} Cut(data: Bytes) returns (lines: seq<Bytes>, last: Bytes)
    ensures AllLines(lines) && IsLine(last) && Text(lines, last) == data
    decreases |data|
  {
    var i := LineEnd(data);
    if i == |data| {
      lines, last := [], data;
    } else {
      var rest;
      rest, last := Cut(data[i + 1..]);
      lines := [data[..i]] + rest;
      assert lines[1..] == rest;
      AroundIndex(data, i);
    }
  }

  // ----- what the calls ask for

  /** Some include pattern given matches, or none was given, and no exclude pattern given matches. */
  predicate Wanted(ops: seq<BuildOp>, line: Bytes) {
    && ((forall i | 0 <= i < |ops| :: !ops[i].AddInclude?)
        || exists i | 0 <= i < |ops| :: ops[i].AddInclude? && ops[i].p(line))
    && forall i | 0 <= i < |ops| && ops[i].AddExclude? :: !ops[i].p(line)
  }

  predicate Stops(ops: seq<BuildOp>, line: Bytes) {
    exists i | 0 <= i < |ops| :: ops[i].AddExcludeAfter? && ops[i].p(line)
  }

  predicate Resumes(ops: seq<BuildOp>, line: Bytes) {
    exists i | 0 <= i < |ops| :: ops[i].AddIncludeAfter? && ops[i].p(line)
  }

  predicate EverStops(ops: seq<BuildOp>) {
    exists i | 0 <= i < |ops| :: ops[i].AddExcludeAfter?
  }

  /** A call that sets how the text begins; one for a pattern does not if patterns of the opposite kind were given. */
  predicate Decides(ops: seq<BuildOp>, j: nat)
    requires j < |ops|
  {
    match ops[j]
    case SetPassThru => true
    case SetBlackHole => true
    case AddExcludeAfter(_) => forall i | 0 <= i < j :: !ops[i].AddIncludeAfter?
    case AddIncludeAfter(_) => forall i | 0 <= i < j :: !ops[i].AddExcludeAfter?
    case _ => false
  }

  predicate TurnsOff(op: BuildOp) {
    op.SetBlackHole? || op.AddIncludeAfter?
  }

  /** A text is included from the start unless the last call that decides says otherwise. */
  predicate StartsOn(ops: seq<BuildOp>) {
    forall j | 0 <= j < |ops| && Decides(ops, j) && TurnsOff(ops[j]) ::
      exists k | j < k < |ops| :: Decides(ops, k) && !TurnsOff(ops[k])
  }

  /** Whether a line is read while lines are included. */
  predicate On(ops: seq<BuildOp>, lines: seq<Bytes>, i: nat)
    requires i <= |lines|
  {
    if i == 0 then StartsOn(ops)
    else if On(ops, lines, i - 1) then !Stops(ops, lines[i - 1])
    else Resumes(ops, lines[i - 1])
  }

  /** After a line that resumes, where nothing can stop again, all is passed on without a look at it. */
  predicate Unread(ops: seq<BuildOp>, lines: seq<Bytes>, i: nat)
    requires i <= |lines|
  {
    !EverStops(ops) && exists j | 0 <= j < i :: !On(ops, lines, j) && Resumes(ops, lines[j])
  }

  predicate Kept(ops: seq<BuildOp>, lines: seq<Bytes>, i: nat)
    requires i < |lines|
  {
    Unread(ops, lines, i) || (On(ops, lines, i) && Wanted(ops, lines[i]))
  }

  /** The lines that are kept, in order. */
  function KeptFrom(ops: seq<BuildOp>, lines: seq<Bytes>, i: nat): seq<Bytes>
    requires i <= |lines|
    decreases |lines| - i
  {
    if i == |lines| then []
    else (if Kept(ops, lines, i) then [lines[i]] else []) + KeptFrom(ops, lines, i + 1)
  }

  // ----- the calls and the filter they build

  /** The patterns of a list are those given by calls of its kind. */
  ghost predicate Lists(ps: seq<Pattern>, ops: seq<BuildOp>, kind: BuildOp -> bool) {
    && (ps == [] <==> forall i | 0 <= i < |ops| :: !kind(ops[i]))
    && forall line :: IsMatch(ps, line) <==> GivenFor(ops, kind, line)
  }

  predicate HasPattern(op: BuildOp) {
    !op.SetPassThru? && !op.SetBlackHole?
  }

  predicate GivenFor(ops: seq<BuildOp>, kind: BuildOp -> bool, line: Bytes) {
    exists i | 0 <= i < |ops| :: HasPattern(ops[i]) && kind(ops[i]) && ops[i].p(line)
  }

  lemma {:induction false} ListsNext(ps: seq<Pattern>, ops: seq<BuildOp>, op: BuildOp, kind: BuildOp -> bool)
    requires Lists(ps, ops, kind) && (kind(op) ==> HasPattern(op))
    ensures Lists(if kind(op) then ps + [op.p] else ps, ops + [op], kind)
  {
    forall line
      ensures IsMatch(if kind(op) then ps + [op.p] else ps, line) <==> GivenFor(ops + [op], kind, line)
    {
      GivenMore(ops, op, kind, line);
      if kind(op) {
        MatchMore(ps, op.p, line);
      }
    }
    NoneMore(ops, op, kind);
  }

  lemma {:induction false} NoneMore(ops: seq<BuildOp>, op: BuildOp, kind: BuildOp -> bool)
    ensures (forall i | 0 <= i < |ops + [op]| :: !kind((ops + [op])[i]))
       <==> !kind(op) && forall i | 0 <= i < |ops| :: !kind(ops[i])
  {
    var all := ops + [op];
    assert all[|ops|] == op && forall i | 0 <= i < |ops| :: all[i] == ops[i];
  }

  lemma {:induction false} GivenMore(ops: seq<BuildOp>, op: BuildOp, kind: BuildOp -> bool, line: Bytes)
    ensures GivenFor(ops + [op], kind, line)
       <==> GivenFor(ops, kind, line) || (HasPattern(op) && kind(op) && op.p(line))
  {
    var all := ops + [op];
    assert all[|ops|] == op && forall i | 0 <= i < |ops| :: all[i] == ops[i];
  }

  lemma {:induction false} MatchMore(ps: seq<Pattern>, p: Pattern, line: Bytes)
    ensures IsMatch(ps + [p], line) <==> IsMatch(ps, line) || p(line)
  {
    var all := ps + [p];
    assert all[|ps|] == p && forall i | 0 <= i < |ps| :: all[i] == ps[i];
  }

  const INCLUDES: BuildOp -> bool := (op: BuildOp) => op.AddInclude?
  const EXCLUDES: BuildOp -> bool := (op: BuildOp) => op.AddExclude?
  const STOPS: BuildOp -> bool := (op: BuildOp) => op.AddExcludeAfter?
  const RESUMES: BuildOp -> bool := (op: BuildOp) => op.AddIncludeAfter?

  ghost predicate BuiltFrom(p: Patterns, ops: seq<BuildOp>) {
    && Lists(p.includes, ops, INCLUDES) && Lists(p.exclude, ops, EXCLUDES)
    && Lists(p.excludeAfter, ops, STOPS) && Lists(p.includeAfter, ops, RESUMES)
  }

  lemma {:induction false} BuildLists(ops: seq<BuildOp>)
    ensures BuiltFrom(Build(ops).patterns, ops)
    decreases |ops|
  {
    if ops != [] {
      var n := |ops| - 1;
      var pre, op := ops[..n], ops[n];
      BuildLists(pre);
      assert ops == pre + [op];
      BuildListsStep(Build(pre), pre, op);
    }
  }

  lemma {:induction false} BuildListsStep(f: Filter, ops: seq<BuildOp>, op: BuildOp)
    requires BuiltFrom(f.patterns, ops)
    ensures BuiltFrom(Build1(f, op).patterns, ops + [op])
  {
    var p := f.patterns;
    ListsNext(p.includes, ops, op, INCLUDES);
    ListsNext(p.exclude, ops, op, EXCLUDES);
    ListsNext(p.excludeAfter, ops, op, STOPS);
    ListsNext(p.includeAfter, ops, op, RESUMES);
  }

  /** The built filter reads a line as the calls ask. */
  lemma {:induction false} ReadsAsAsked(ops: seq<BuildOp>, line: Bytes)
    ensures var p := Build(ops).patterns;
            && (Selected(p, line) <==> Wanted(ops, line))
            && (NextState(p, Include, line) == Exclude <==> Stops(ops, line))
            && (NextState(p, Exclude, line) == Include <==> Resumes(ops, line))
            && (p.hasExcludeAfter <==> EverStops(ops))
  {
    BuildLists(ops);
    BuildFlags(ops);
    var p := Build(ops).patterns;
    assert IsMatch(p.includes, line) <==> GivenFor(ops, INCLUDES, line);
    assert IsMatch(p.exclude, line) <==> GivenFor(ops, EXCLUDES, line);
    assert IsMatch(p.excludeAfter, line) <==> GivenFor(ops, STOPS, line);
    assert IsMatch(p.includeAfter, line) <==> GivenFor(ops, RESUMES, line);
  }

  lemma {:induction false} DecidesBefore(ops: seq<BuildOp>, op: BuildOp, j: nat)
    requires j < |ops|
    ensures Decides(ops + [op], j) == Decides(ops, j) && (ops + [op])[j] == ops[j]
  {
    assert forall i | 0 <= i < |ops| :: (ops + [op])[i] == ops[i];
  }

  lemma {:induction false} StartsNext(ops: seq<BuildOp>, op: BuildOp)
    ensures var all := ops + [op];
            StartsOn(all) == if Decides(all, |ops|) then !TurnsOff(op) else StartsOn(ops)
  {
    var all, n := ops + [op], |ops|;
    forall j | 0 <= j < n ensures Decides(all, j) == Decides(ops, j) && all[j] == ops[j] {
      DecidesBefore(ops, op, j);
    }
    assert all[n] == op;
    if Decides(all, n) {
      if TurnsOff(op) {
        assert !StartsOn(all);
      } else {
        assert StartsOn(all);
      }
    } else {
      if StartsOn(ops) {
        forall j | 0 <= j < |all| && Decides(all, j) && TurnsOff(all[j])
          ensures exists k | j < k < |all| :: Decides(all, k) && !TurnsOff(all[k])
        {
          var k :| j < k < n && Decides(ops, k) && !TurnsOff(ops[k]);
          assert Decides(all, k) && !TurnsOff(all[k]);
        }
      } else {
        var j :| 0 <= j < n && Decides(ops, j) && TurnsOff(ops[j])
                 && forall k | j < k < n :: !(Decides(ops, k) && !TurnsOff(ops[k]));
        assert Decides(all, j) && TurnsOff(all[j]);
      }
    }
  }

  /** The built filter begins as the calls ask, and is of the kind the last one sets. */
  lemma {:induction false} StartsAsAsked(ops: seq<BuildOp>)
    ensures Build(ops).state == Include <==> StartsOn(ops)
    ensures Build(ops).kind == if ops == [] then Undefined
                               else match ops[|ops| - 1]
                                 case SetPassThru => PassThru
                                 case SetBlackHole => BlackHole
                                 case _ => ApplyFilters
    decreases |ops|
  {
    if ops != [] {
      var n := |ops| - 1;
      var pre, op := ops[..n], ops[n];
      assert ops == pre + [op];
      StartsAsAsked(pre);
      BuildLists(pre);
      StartsNext(pre, op);
      StateNext(Build(pre), pre, op);
    }
  }

  lemma {:induction false} StateNext(f: Filter, ops: seq<BuildOp>, op: BuildOp)
    requires BuiltFrom(f.patterns, ops)
    ensures Build1(f, op).state
         == if !Decides(ops + [op], |ops|) then f.state else if TurnsOff(op) then Exclude else Include
  {
    var all := ops + [op];
    assert all[|ops|] == op && forall i | 0 <= i < |ops| :: all[i] == ops[i];
    assert f.patterns.includeAfter == [] <==> forall i | 0 <= i < |ops| :: !RESUMES(ops[i]);
    assert f.patterns.excludeAfter == [] <==> forall i | 0 <= i < |ops| :: !STOPS(ops[i]);
  }

  // ----- texts through a filter

  lemma {:induction false} TextEnd(lines: seq<Bytes>, last: Bytes)
    requires AllLines(lines) && IsLine(last)
    ensures var data := Text(lines, last);
            if lines == [] then LineEnd(data) == |data|
            else
              && LineEnd(data) == |lines[0]| < |data|
              && data[..|lines[0]|] == lines[0] && data[|lines[0]| + 1..] == Text(lines[1..], last)
  {
    if lines == [] {
      var i := LineEnd(last);
    } else {
      assert IsLine(lines[0]);
      LineEndOf(lines[0], Text(lines[1..], last));
    }
  }

  lemma {:induction false} UnreadStays(ops: seq<BuildOp>, lines: seq<Bytes>, i: nat)
    requires i <= |lines| && Unread(ops, lines, i)
    ensures On(ops, lines, i) && (i < |lines| ==> Unread(ops, lines, i + 1))
    decreases i
  {
    var j :| 0 <= j < i && !On(ops, lines, j) && Resumes(ops, lines[j]);
    if j < i - 1 {
      UnreadStays(ops, lines, i - 1);
    }
    if i < |lines| {
      assert !On(ops, lines, j) && Resumes(ops, lines[j]);
    }
  }

  lemma {:induction false} UnreadAll(ops: seq<BuildOp>, lines: seq<Bytes>, i: nat)
    requires i <= |lines| && Unread(ops, lines, i)
    ensures KeptFrom(ops, lines, i) == lines[i..] && On(ops, lines, |lines|)
    decreases |lines| - i
  {
    UnreadStays(ops, lines, i);
    if i == |lines| {
      assert lines[i..] == [];
    } else {
      UnreadAll(ops, lines, i + 1);
      KeptUnread(ops, lines, i);
      FirstAndRest(lines, i);
    }
  }

  lemma {:induction false} KeptUnread(ops: seq<BuildOp>, lines: seq<Bytes>, i: nat)
    requires i < |lines| && Unread(ops, lines, i)
    ensures KeptFrom(ops, lines, i) == [lines[i]] + KeptFrom(ops, lines, i + 1)
  {
  }

  lemma {:induction false} FirstAndRest(lines: seq<Bytes>, i: nat)
    requires i < |lines|
    ensures lines[i..] == [lines[i]] + lines[i + 1..]
  {
  }

  function StateAt(ops: seq<BuildOp>, lines: seq<Bytes>, i: nat): State
    requires i <= |lines|
  {
    if On(ops, lines, i) then Include else Exclude
  }

  /** From a line on, the reference keeps what the calls ask for. */
  ghost predicate AsAsked(ops: seq<BuildOp>, lines: seq<Bytes>, last: Bytes, i: nat)
    requires i <= |lines|
  {
    FilteredOrPassed(Build(ops).patterns, StateAt(ops, lines, i), Text(lines[i..], last))
    == Text(KeptFrom(ops, lines, i), if On(ops, lines, |lines|) then last else [])
  }

  lemma {:induction false} TextFiltered(ops: seq<BuildOp>, lines: seq<Bytes>, last: Bytes, i: nat)
    requires AllLines(lines) && IsLine(last) && i <= |lines| && !Unread(ops, lines, i)
    ensures AsAsked(ops, lines, last, i)
    decreases |lines| - i
  {
    if i == |lines| {
      TextEnd(lines[i..], last);
    } else if Unread(ops, lines, i + 1) {
      LinePassed(ops, lines, last, i);
    } else {
      TextFiltered(ops, lines, last, i + 1);
      LineRead(ops, lines, last, i);
    }
  }

  /** The reference on a text that starts with line i. */
  lemma {:induction false} FirstLine(p: Patterns, s: State, lines: seq<Bytes>, last: Bytes, i: nat)
    requires AllLines(lines) && IsLine(last) && i < |lines|
    ensures var line, rest, s' := lines[i], Text(lines[i + 1..], last), NextState(p, s, lines[i]);
            FilteredOrPassed(p, s, Text(lines[i..], last))
            == if s == Exclude && s' == Include && !p.hasExcludeAfter then rest
               else Emitted(p, s, line) + FilteredOrPassed(p, s', rest)
  {
    TextEnd(lines[i..], last);
    assert lines[i..][0] == lines[i] && lines[i..][1..] == lines[i + 1..];
    FilteredLine(p, s, Text(lines[i..], last));
  }

  lemma {:induction false} LinePassed(ops: seq<BuildOp>, lines: seq<Bytes>, last: Bytes, i: nat)
    requires AllLines(lines) && IsLine(last) && i < |lines| && !Unread(ops, lines, i) && Unread(ops, lines, i + 1)
    ensures AsAsked(ops, lines, last, i)
  {
    NowUnread(ops, lines, i);
    PassedOn(ops, lines, last, i);
    UnreadAll(ops, lines, i + 1);
    KeptSkips(ops, lines, i);
  }

  lemma {:induction false} PassedOn(ops: seq<BuildOp>, lines: seq<Bytes>, last: Bytes, i: nat)
    requires AllLines(lines) && IsLine(last) && i < |lines| && Resumes(ops, lines[i]) && !EverStops(ops)
    ensures FilteredOrPassed(Build(ops).patterns, Exclude, Text(lines[i..], last)) == Text(lines[i + 1..], last)
  {
    ReadsAsAsked(ops, lines[i]);
    FirstLine(Build(ops).patterns, Exclude, lines, last, i);
  }

  lemma {:induction false} KeptSkips(ops: seq<BuildOp>, lines: seq<Bytes>, i: nat)
    requires i < |lines| && !Kept(ops, lines, i)
    ensures KeptFrom(ops, lines, i) == KeptFrom(ops, lines, i + 1)
  {
    EmptyConcat(KeptFrom(ops, lines, i + 1));
  }

  lemma {:induction false} LineRead(ops: seq<BuildOp>, lines: seq<Bytes>, last: Bytes, i: nat)
    requires AllLines(lines) && IsLine(last) && i < |lines| && !Unread(ops, lines, i) && !Unread(ops, lines, i + 1)
    requires AsAsked(ops, lines, last, i + 1)
    ensures AsAsked(ops, lines, last, i)
  {
    var p, s := Build(ops).patterns, StateAt(ops, lines, i);
    NextAsAsked(ops, lines, i);
    FirstLine(p, s, lines, last, i);
    StillRead(ops, lines, i);
    TextKept(ops, lines, i, if On(ops, lines, |lines|) then last else []);
  }

  lemma {:induction false} NextAsAsked(ops: seq<BuildOp>, lines: seq<Bytes>, i: nat)
    requires i < |lines|
    ensures var p, s := Build(ops).patterns, StateAt(ops, lines, i);
            && NextState(p, s, lines[i]) == StateAt(ops, lines, i + 1)
            && (p.hasExcludeAfter <==> EverStops(ops))
            && Emitted(p, s, lines[i])
               == if On(ops, lines, i) && Wanted(ops, lines[i]) then lines[i] + [NEWLINE] else []
  {
    ReadsAsAsked(ops, lines[i]);
  }

  /** A line that resumes is read on only where something can stop again. */
  lemma {:induction false} StillRead(ops: seq<BuildOp>, lines: seq<Bytes>, i: nat)
    requires i < |lines| && !Unread(ops, lines, i + 1)
    ensures !On(ops, lines, i) && On(ops, lines, i + 1) ==> EverStops(ops)
  {
  }

  lemma {:induction false} NowUnread(ops: seq<BuildOp>, lines: seq<Bytes>, i: nat)
    requires i < |lines| && !Unread(ops, lines, i) && Unread(ops, lines, i + 1)
    ensures !On(ops, lines, i) && Resumes(ops, lines[i]) && !EverStops(ops) && !Kept(ops, lines, i)
  {
  }

  lemma {:induction false} TextKept(ops: seq<BuildOp>, lines: seq<Bytes>, i: nat, end: Bytes)
    requires i < |lines| && !Unread(ops, lines, i)
    ensures Text(KeptFrom(ops, lines, i), end)
         == (if On(ops, lines, i) && Wanted(ops, lines[i]) then lines[i] + [NEWLINE] else [])
            + Text(KeptFrom(ops, lines, i + 1), end)
  {
    var more := KeptFrom(ops, lines, i + 1);
    EmptyConcat(more);
    EmptyConcat(Text(more, end));
    assert ([lines[i]] + more)[1..] == more;
  }

  /**
   Any calls, any text, however it is cut into Write calls: the output after Close is
   the lines that the calls ask to keep, and what follows the last newline exactly if
   lines are included there. The last call decides if nothing is read at all.
   */
  lemma {:induction false} AnyChunking(ops: seq<BuildOp>, lines: seq<Bytes>, last: Bytes, chunks: seq<Bytes>)
    requires AllLines(lines) && IsLine(last) && Flatten(chunks) == Text(lines, last)
    ensures CloseWriter(FeedAll(Writer(Build(ops), [], []), chunks)).out
         == if ops == [] || ops[|ops| - 1].SetBlackHole? then []
            else if ops[|ops| - 1].SetPassThru? then Text(lines, last)
            else Text(KeptFrom(ops, lines, 0), if On(ops, lines, |lines|) then last else [])
  {
    BuiltOutput(ops, chunks);
    StartsAsAsked(ops);
    assert lines[0..] == lines;
    TextFiltered(ops, lines, last, 0);
  }

  // ----- filters of per-line patterns only

  function WantedLines(ops: seq<BuildOp>, lines: seq<Bytes>): seq<Bytes> {
    if lines == [] then []
    else (if Wanted(ops, lines[0]) then [lines[0]] else []) + WantedLines(ops, lines[1..])
  }

  lemma {:induction false} AlwaysOn(ops: seq<BuildOp>, lines: seq<Bytes>, i: nat)
    requires (forall op | op in ops :: op.AddInclude? || op.AddExclude?) && i <= |lines|
    ensures On(ops, lines, i) && !Unread(ops, lines, i)
    decreases i
  {
    assert forall j | 0 <= j < |ops| :: ops[j] in ops;
    forall j: nat | j < |ops| ensures !Decides(ops, j) {
    }
    if i > 0 {
      AlwaysOn(ops, lines, i - 1);
    }
  }

  lemma {:induction false} WantedFrom(ops: seq<BuildOp>, lines: seq<Bytes>, i: nat)
    requires (forall op | op in ops :: op.AddInclude? || op.AddExclude?) && i <= |lines|
    ensures KeptFrom(ops, lines, i) == WantedLines(ops, lines[i..])
    decreases |lines| - i
  {
    if i < |lines| {
      KeptIfWanted(ops, lines, i);
      assert lines[i..][0] == lines[i] && lines[i..][1..] == lines[i + 1..];
      WantedFrom(ops, lines, i + 1);
    }
  }

  lemma {:induction false} KeptIfWanted(ops: seq<BuildOp>, lines: seq<Bytes>, i: nat)
    requires (forall op | op in ops :: op.AddInclude? || op.AddExclude?) && i < |lines|
    ensures KeptFrom(ops, lines, i)
         == (if Wanted(ops, lines[i]) then [lines[i]] else []) + KeptFrom(ops, lines, i + 1)
  {
    AlwaysOn(ops, lines, i);
  }

  /**
   A filter of include and exclude patterns only keeps exactly the lines that some
   include pattern matches, or any where there is none, and that no exclude pattern
   matches; what follows the last newline is always kept.
   */
  lemma {:induction false} WantedOnly(ops: seq<BuildOp>, lines: seq<Bytes>, last: Bytes, chunks: seq<Bytes>)
    requires ops != [] && forall op | op in ops :: op.AddInclude? || op.AddExclude?
    requires AllLines(lines) && IsLine(last) && Flatten(chunks) == Text(lines, last)
    ensures CloseWriter(FeedAll(Writer(Build(ops), [], []), chunks)).out == Text(WantedLines(ops, lines), last)
  {
    AnyChunking(ops, lines, last, chunks);
    assert ops[|ops| - 1] in ops;
    AlwaysOn(ops, lines, |lines|);
    WantedFrom(ops, lines, 0);
    assert lines[0..] == lines;
  }
}
