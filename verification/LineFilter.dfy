/**
 The line filter: an io.Writer that passes on the lines its patterns select, one
 byte at a time, and switches itself to pass-through or to discarding.
 */
module LineFilter {
  import Common

  type Bytes = seq<bv8>
  type Pattern = Bytes -> bool

  const NEWLINE: bv8 := 10

  datatype FilterType = Undefined | PassThru | BlackHole | ApplyFilters

  datatype State = Include | Exclude

  /** The patterns of a filter with the flags that record which kinds were added. */
  datatype Patterns = Patterns(
    excludeAfter: seq<Pattern>,
    includeAfter: seq<Pattern>,
    exclude: seq<Pattern>,
    includes: seq<Pattern>,
    hasExcludeAfter: bool,
    hasIncludeAfter: bool,
    hasExclude: bool,
    hasInclude: bool)

  datatype Filter = Filter(kind: FilterType, state: State, patterns: Patterns)

  // ----- builders

  const ZERO_FILTER := Filter(Undefined, Include, Patterns([], [], [], [], false, false, false, false))

  datatype BuildOp =
    | SetPassThru
    | SetBlackHole
    | AddExcludeAfter(p: Pattern)
    | AddIncludeAfter(p: Pattern)
    | AddExclude(p: Pattern)
    | AddInclude(p: Pattern)

  function Build1(f: Filter, op: BuildOp): Filter {
    match op
    case SetPassThru => f.(kind := PassThru, state := Include)
    case SetBlackHole => f.(kind := BlackHole, state := Exclude)
    case AddExcludeAfter(p) =>
      Filter(ApplyFilters, if f.patterns.includeAfter == [] then Include else f.state,
             f.patterns.(excludeAfter := f.patterns.excludeAfter + [p], hasExcludeAfter := true))
    case AddIncludeAfter(p) =>
      Filter(ApplyFilters, if f.patterns.excludeAfter == [] then Exclude else f.state,
             f.patterns.(includeAfter := f.patterns.includeAfter + [p], hasIncludeAfter := true))
    case AddExclude(p) =>
      Filter(ApplyFilters, f.state, f.patterns.(exclude := f.patterns.exclude + [p], hasExclude := true))
    case AddInclude(p) =>
      Filter(ApplyFilters, f.state, f.patterns.(includes := f.patterns.includes + [p], hasInclude := true))
  }

  function Build(ops: seq<BuildOp>): Filter {
    if ops == [] then ZERO_FILTER else Build1(Build(ops[..|ops| - 1]), ops[|ops| - 1])
  }

  /** Each flag says whether its list has a pattern. */
  predicate FlagsMatch(p: Patterns) {
    && p.hasExcludeAfter == (p.excludeAfter != [])
    && p.hasIncludeAfter == (p.includeAfter != [])
    && p.hasExclude == (p.exclude != [])
    && p.hasInclude == (p.includes != [])
  }

  lemma {:induction false} BuildFlags(ops: seq<BuildOp>)
    ensures FlagsMatch(Build(ops).patterns)
    ensures Build(ops).kind == Undefined <==> ops == []
  {
    if ops != [] {
      BuildFlags(ops[..|ops| - 1]);
      Build1Flags(Build(ops[..|ops| - 1]), ops[|ops| - 1]);
    }
  }

  lemma {:induction false} Build1Flags(f: Filter, op: BuildOp)
    requires FlagsMatch(f.patterns)
    ensures FlagsMatch(Build1(f, op).patterns) && Build1(f, op).kind != Undefined
  {
  }

  // ----- the writer, byte by byte

  predicate IsMatch(patterns: seq<Pattern>, line: Bytes) {
    exists i | 0 <= i < |patterns| :: patterns[i](line)
  }

  /** The per-line patterns let the line through. */
  predicate Passes(p: Patterns, line: Bytes) {
    (!p.hasInclude || IsMatch(p.includes, line)) && (!p.hasExclude || !IsMatch(p.exclude, line))
  }

  datatype Writer = Writer(filter: Filter, line: Bytes, out: Bytes)

  function EndLine(w: Writer, line: Bytes): Writer {
    var f, p := w.filter, w.filter.patterns;
    if f.state == Include then
      var w' := if Passes(p, line) then w.(out := w.out + line + [NEWLINE]) else w;
      if IsMatch(p.excludeAfter, line) then
        w'.(filter := f.(state := Exclude, kind := if p.hasIncludeAfter then f.kind else BlackHole))
      else w'
    else if IsMatch(p.includeAfter, line) then
      w.(filter := f.(state := Include, kind := if p.hasExcludeAfter then f.kind else PassThru))
    else w
  }

  function StepByte(w: Writer, b: bv8): Writer {
    match w.filter.kind
    case BlackHole => w
    case PassThru => w.(out := w.out + [b])
    case Undefined => w
    case ApplyFilters =>
      if b == NEWLINE then EndLine(w.(line := []), w.line) else w.(line := w.line + [b])
  }

  function Feed(w: Writer, data: Bytes): Writer
    decreases |data|
  {
    if data == [] then w else Feed(StepByte(w, data[0]), data[1..])
  }

  function CloseWriter(w: Writer): Writer {
    Writer(w.filter.(kind := Undefined), w.line, if w.filter.state == Include then w.out + w.line else w.out)
  }

  lemma {:induction false} FeedConcat(w: Writer, a: Bytes, b: Bytes)
    ensures Feed(w, a + b) == Feed(Feed(w, a), b)
    decreases |a|
  {
    if a == [] {
      assert a + b == b;
    } else {
      assert (a + b)[1..] == a[1..] + b;
      FeedConcat(StepByte(w, a[0]), a[1..], b);
    }
  }

  lemma {:induction false} FeedPassThru(w: Writer, data: Bytes)
    requires w.filter.kind == PassThru
    ensures Feed(w, data) == w.(out := w.out + data)
    decreases |data|
  {
    if data == [] {
      assert w.out + data == w.out;
    } else {
      FeedPassThru(StepByte(w, data[0]), data[1..]);
      assert w.out + [data[0]] + data[1..] == w.out + data;
    }
  }

  lemma {:induction false} FeedBlackHole(w: Writer, data: Bytes)
    requires w.filter.kind == BlackHole || w.filter.kind == Undefined
    ensures Feed(w, data) == w
    decreases |data|
  {
    if data != [] {
      FeedBlackHole(w, data[1..]);
    }
  }

  /** After Close nothing more comes out. */
  lemma {:induction false} NothingAfterClose(w: Writer, data: Bytes)
    ensures Feed(CloseWriter(w), data) == CloseWriter(w) && CloseWriter(w).filter.kind == Undefined
  {
    FeedBlackHole(CloseWriter(w), data);
  }

  // ----- what becomes of one line

  function NextState(p: Patterns, s: State, line: Bytes): State {
    match s
    case Include => if exists i | 0 <= i < |p.excludeAfter| :: p.excludeAfter[i](line) then Exclude else Include
    case Exclude => if exists i | 0 <= i < |p.includeAfter| :: p.includeAfter[i](line) then Include else Exclude
  }

  /** Some include pattern matches the line, where there are any, and no exclude pattern does. */
  predicate Selected(p: Patterns, line: Bytes) {
    && (p.includes == [] || exists i | 0 <= i < |p.includes| :: p.includes[i](line))
    && forall i | 0 <= i < |p.exclude| :: !p.exclude[i](line)
  }

  function Emitted(p: Patterns, s: State, line: Bytes): Bytes {
    if s == Include && Selected(p, line) then line + [NEWLINE] else []
  }

  lemma {:induction false} EndLineIs(w: Writer, line: Bytes)
    requires FlagsMatch(w.filter.patterns)
    ensures var p, s := w.filter.patterns, w.filter.state;
            var w' := EndLine(w, line);
            w'.out == w.out + Emitted(p, s, line) && w'.filter.state == NextState(p, s, line)
  {
    Common.ConcatEmpty(w.out);
    Common.ConcatAssoc(w.out, line, [NEWLINE]);
  }

  // ----- the writer as the object it is

  class FilterWriter {
    var output: Bytes
    var currentLine: Bytes
    var kind: FilterType
    var state: State
    const patterns: Patterns

    ghost function View(): Writer
      reads this
    {
      Writer(Filter(kind, state, patterns), currentLine, output)
    }

    constructor (filter: Filter)
      ensures View() == Writer(filter, [], [])
    {
      output, currentLine := [], [];
      kind, state, patterns := filter.kind, filter.state, filter.patterns;
    }

    static method Match(ps: seq<Pattern>, line: Bytes) returns (m: bool)
      ensures m == IsMatch(ps, line)
    {
      for i := 0 to |ps|
        invariant forall j | 0 <= j < i :: !ps[j](line)
      {
        if ps[i](line) {
          return true;
        }
      }
      m := false;
    }

    method LinePasses(line: Bytes) returns (m: bool)
      ensures m == Passes(patterns, line)
    {
      var included := Match(patterns.includes, line);
      var excluded := Match(patterns.exclude, line);
      m := (!patterns.hasInclude || included) && (!patterns.hasExclude || !excluded);
    }

    /** Handles a completed line; true when the filter has switched type. */
    method FinishLine(line: Bytes) returns (switched: bool)
      requires kind == ApplyFilters
      modifies this
      ensures View() == EndLine(old(View()), line)
      ensures FlagsMatch(patterns) ==>
                && output == old(output) + Emitted(patterns, old(state), line)
                && state == NextState(patterns, old(state), line)
      ensures switched <==> kind != ApplyFilters
      ensures currentLine == old(currentLine)
    {
      if state == Include {
        var pass := LinePasses(line);
        if pass {
          output := output + line + [NEWLINE];
        }
        var last := Match(patterns.excludeAfter, line);
        if last {
          state := Exclude;
          if !patterns.hasIncludeAfter {
            kind := BlackHole;
          }
        }
      } else {
        var first := Match(patterns.includeAfter, line);
        if first {
          state := Include;
          if !patterns.hasExcludeAfter {
            kind := PassThru;
          }
        }
      }
      switched := kind != ApplyFilters;
      if FlagsMatch(patterns) {
        EndLineIs(old(View()), line);
      }
    }

    method Write(data: Bytes) returns (n: nat, ok: bool)
      modifies this
      ensures View() == Feed(old(View()), data)
      ensures ok <==> old(kind) != Undefined
      ensures n == if ok then |data| else 0
    {
      match kind {
        case Undefined =>
          FeedBlackHole(View(), data);
          return 0, false;
        case BlackHole =>
          FeedBlackHole(View(), data);
        case PassThru =>
          FeedPassThru(View(), data);
          output := output + data;
        case ApplyFilters =>
          WriteFiltered(data);
      }
      n, ok := |data|, true;
    }

    method WriteFiltered(data: Bytes)
      requires kind == ApplyFilters
      modifies this
      ensures View() == Feed(old(View()), data)
    {
      var i := 0;
      while i < |data|
        invariant 0 <= i <= |data|
        invariant kind == ApplyFilters
        invariant Feed(old(View()), data) == Feed(View(), data[i..])
      {
        var b := data[i];
        assert data[i..][1..] == data[i + 1..];
        ghost var before := View();
        if b == NEWLINE {
          var line := currentLine;
          currentLine := [];
          var switched := FinishLine(line);
          assert View() == StepByte(before, b);
          if switched {
            if kind == PassThru {
              FeedPassThru(View(), data[i + 1..]);
              output := output + data[i + 1..];
            } else {
              FeedBlackHole(View(), data[i + 1..]);
            }
            return;
          }
        } else {
          currentLine := currentLine + [b];
          assert View() == StepByte(before, b);
        }
        i := i + 1;
      }
    }

    method Close()
      modifies this
      ensures View() == CloseWriter(old(View()))
    {
      if state == Include {
        output := output + currentLine;
      }
      kind := Undefined;
    }
  }

  // ----- the line-by-line reference

  /** The position of the first newline, or |data|. */
  function LineEnd(data: Bytes): (i: nat)
    ensures i <= |data|
    ensures forall k | 0 <= k < i :: data[k] != NEWLINE
    ensures i < |data| ==> data[i] == NEWLINE
  {
    if data == [] || data[0] == NEWLINE then 0 else 1 + LineEnd(data[1..])
  }

  /**
   Filters line by line to the end of the data, with no switch of type: an
   unterminated last line is emitted exactly when the final state is Include.
   */
  function Filtered(p: Patterns, s: State, data: Bytes): Bytes
    decreases |data|
  {
    var i := LineEnd(data);
    if i == |data| then if s == Include then data else []
    else Emitted(p, s, data[..i]) + Filtered(p, NextState(p, s, data[..i]), data[i + 1..])
  }

  /** As Filtered, but everything after a line that re-includes for good is passed on verbatim. */
  function FilteredOrPassed(p: Patterns, s: State, data: Bytes): Bytes
    decreases |data|
  {
    var i := LineEnd(data);
    if i == |data| then if s == Include then data else []
    else
      var s' := NextState(p, s, data[..i]);
      if s == Exclude && s' == Include && !p.hasExcludeAfter then data[i + 1..]
      else Emitted(p, s, data[..i]) + FilteredOrPassed(p, s', data[i + 1..])
  }

  /** Bytes up to a newline only accumulate in the current line. */
  lemma {:induction false} FeedLine(w: Writer, data: Bytes)
    requires w.filter.kind == ApplyFilters && forall k | 0 <= k < |data| :: data[k] != NEWLINE
    ensures Feed(w, data) == w.(line := w.line + data)
    decreases |data|
  {
    if data == [] {
      assert w.line + data == w.line;
    } else {
      FeedLine(StepByte(w, data[0]), data[1..]);
      assert w.line + [data[0]] + data[1..] == w.line + data;
    }
  }

  /** With no pattern to include again, exclusion is for good. */
  lemma {:induction false} ExcludedForGood(p: Patterns, data: Bytes)
    requires p.includeAfter == []
    ensures FilteredOrPassed(p, Exclude, data) == []
    decreases |data|
  {
    var i := LineEnd(data);
    if i < |data| {
      ExcludedForGood(p, data[i + 1..]);
    }
  }

  lemma {:induction false} FeedOneLine(w: Writer, data: Bytes)
    requires w.filter.kind == ApplyFilters && w.line == [] && LineEnd(data) < |data|
    ensures Feed(w, data) == Feed(EndLine(w, data[..LineEnd(data)]), data[LineEnd(data) + 1..])
  {
    var i := LineEnd(data);
    var line, rest := data[..i], data[i + 1..];
    assert data == line + ([NEWLINE] + rest);
    FeedConcat(w, line, [NEWLINE] + rest);
    FeedLine(w, line);
    assert [] + line == line;
    FeedNewline(w.(line := line), rest);
  }

  lemma {:induction false} FeedNewline(w: Writer, rest: Bytes)
    requires w.filter.kind == ApplyFilters
    ensures Feed(w, [NEWLINE] + rest) == Feed(EndLine(w.(line := []), w.line), rest)
  {
    assert ([NEWLINE] + rest)[1..] == rest;
  }

  lemma {:induction false} EndLineEffect(w: Writer, line: Bytes)
    requires w.filter.kind == ApplyFilters && FlagsMatch(w.filter.patterns)
    ensures var p, s := w.filter.patterns, w.filter.state;
            var s' := NextState(p, s, line);
            var kind := if s == Exclude && s' == Include && !p.hasExcludeAfter then PassThru
                        else if s == Include && s' == Exclude && !p.hasIncludeAfter then BlackHole
                        else ApplyFilters;
            EndLine(w, line) == Writer(Filter(kind, s', p), w.line, w.out + Emitted(p, s, line))
  {
    var p, s := w.filter.patterns, w.filter.state;
    assert w.out + [] == w.out;
    assert w.out + line + [NEWLINE] == w.out + (line + [NEWLINE]);
  }

  /** What remains to be output once the first line is handled. */
  lemma {:induction false} AfterLine(w: Writer, rest: Bytes)
    requires w.line == [] && FlagsMatch(w.filter.patterns)
    requires w.filter.kind == PassThru ==> w.filter.state == Include
    requires w.filter.kind == BlackHole ==> w.filter.state == Exclude && !w.filter.patterns.hasIncludeAfter
    requires w.filter.kind != Undefined
    requires w.filter.kind == ApplyFilters ==>
               CloseWriter(Feed(w, rest)).out == w.out + FilteredOrPassed(w.filter.patterns, w.filter.state, rest)
    ensures CloseWriter(Feed(w, rest)).out
         == w.out + if w.filter.kind == PassThru then rest
                    else FilteredOrPassed(w.filter.patterns, w.filter.state, rest)
  {
    match w.filter.kind
    case ApplyFilters =>
    case PassThru =>
      FeedPassThru(w, rest);
      assert w.out + rest + [] == w.out + rest;
    case BlackHole =>
      FeedBlackHole(w, rest);
      ExcludedForGood(w.filter.patterns, rest);
      assert w.out + [] == w.out;
  }

  /** The byte machine agrees with the line-by-line reference. */
  lemma {:induction false} FeedIsFiltered(w: Writer, data: Bytes)
    requires w.filter.kind == ApplyFilters && w.line == [] && FlagsMatch(w.filter.patterns)
    ensures CloseWriter(Feed(w, data)).out == w.out + FilteredOrPassed(w.filter.patterns, w.filter.state, data)
    decreases |data|
  {
    var i := LineEnd(data);
    if i == |data| {
      FeedLine(w, data);
      assert [] + data == data;
      assert w.out + [] == w.out;
    } else {
      var rest := data[i + 1..];
      var w' := EndLine(w, data[..i]);
      FeedOneLine(w, data);
      EndLineEffect(w, data[..i]);
      if w'.filter.kind == ApplyFilters {
        FeedIsFiltered(w', rest);
      }
      AfterLine(w', rest);
      FirstLineOutput(w, w', data, data[..i], rest);
    }
  }

  /** The reference output of data whose first line is line. */
  lemma {:induction false} FilteredLine(p: Patterns, s: State, data: Bytes)
    requires LineEnd(data) < |data|
    ensures var line, rest := data[..LineEnd(data)], data[LineEnd(data) + 1..];
            && Filtered(p, s, data) == Emitted(p, s, line) + Filtered(p, NextState(p, s, line), rest)
            && FilteredOrPassed(p, s, data)
               == if s == Exclude && NextState(p, s, line) == Include && !p.hasExcludeAfter then rest
                  else Emitted(p, s, line) + FilteredOrPassed(p, NextState(p, s, line), rest)
  {
  }

  lemma {:induction false} FirstLineOutput(w: Writer, w': Writer, data: Bytes, line: Bytes, rest: Bytes)
    requires w.filter.kind == ApplyFilters && FlagsMatch(w.filter.patterns) && LineEnd(data) < |data|
    requires line == data[..LineEnd(data)] && rest == data[LineEnd(data) + 1..] && w' == EndLine(w, line)
    ensures w.out + FilteredOrPassed(w.filter.patterns, w.filter.state, data)
         == w'.out + if w'.filter.kind == PassThru then rest
                     else FilteredOrPassed(w.filter.patterns, w'.filter.state, rest)
  {
    var p, s := w.filter.patterns, w.filter.state;
    FilteredLine(p, s, data);
    EndLineEffect(w, line);
    Joined(w.out, Emitted(p, s, line), FilteredOrPassed(p, NextState(p, s, line), rest));
    Joined(w.out, [], rest);
  }

  lemma {:induction false} Joined(a: Bytes, b: Bytes, c: Bytes)
    ensures a + (b + c) == a + b + c
    ensures a + [] == a && [] + c == c
  {
  }

  // ----- main results

  function FeedAll(w: Writer, chunks: seq<Bytes>): Writer
    decreases |chunks|
  {
    if chunks == [] then w else FeedAll(Feed(w, chunks[0]), chunks[1..])
  }

  function Flatten(chunks: seq<Bytes>): Bytes {
    if chunks == [] then [] else chunks[0] + Flatten(chunks[1..])
  }

  lemma {:induction false} FeedAllFlat(w: Writer, chunks: seq<Bytes>)
    ensures FeedAll(w, chunks) == Feed(w, Flatten(chunks))
    decreases |chunks|
  {
    if chunks != [] {
      FeedAllFlat(Feed(w, chunks[0]), chunks[1..]);
      FeedConcat(w, chunks[0], Flatten(chunks[1..]));
    }
  }

  function Output(f: Filter, data: Bytes): Bytes {
    match f.kind
    case ApplyFilters => FilteredOrPassed(f.patterns, f.state, data)
    case PassThru => data
    case BlackHole => []
    case Undefined => []
  }

  /** However the bytes are cut into Write calls, a built filter's output after Close is the same reference output. */
  lemma {:induction false} BuiltOutput(ops: seq<BuildOp>, chunks: seq<Bytes>)
    ensures CloseWriter(FeedAll(Writer(Build(ops), [], []), chunks)).out == Output(Build(ops), Flatten(chunks))
  {
    var f := Build(ops);
    var w := Writer(f, [], []);
    var data := Flatten(chunks);
    BuildFlags(ops);
    FeedAllFlat(w, chunks);
    match f.kind {
      case ApplyFilters =>
        FeedIsFiltered(w, data);
        assert [] + FilteredOrPassed(f.patterns, f.state, data) == FilteredOrPassed(f.patterns, f.state, data);
      case PassThru =>
        FeedPassThru(w, data);
        assert [] + data + [] == data;
      case BlackHole => FeedBlackHole(w, data);
      case Undefined => FeedBlackHole(w, data);
    }
  }

  /** A line holds no newline. */
  ghost predicate IsLine(line: Bytes) {
    forall k | 0 <= k < |line| :: line[k] != NEWLINE
  }

  ghost predicate AllLinesPass(p: Patterns) {
    forall line {:trigger IsLine(line)} | IsLine(line) :: Selected(p, line)
  }

  /** Either the switch to pass-through cannot happen from state s, or every line passes anyway. */
  ghost predicate PassThruHarmless(p: Patterns, s: State) {
    s == Exclude && !p.hasExcludeAfter && (exists line :: IsLine(line) && NextState(p, Exclude, line) == Include)
    ==> AllLinesPass(p)
  }

  /** When every line passes and nothing excludes, filtering is the identity. */
  lemma {:induction false} AllPass(p: Patterns, data: Bytes)
    requires p.excludeAfter == [] && AllLinesPass(p)
    ensures Filtered(p, Include, data) == data
    decreases |data|
  {
    var i := LineEnd(data);
    if i < |data| {
      AllPass(p, data[i + 1..]);
      PassedLine(p, data, data[..i], data[i + 1..]);
    }
  }

  lemma {:induction false} PassedLine(p: Patterns, data: Bytes, line: Bytes, rest: Bytes)
    requires LineEnd(data) < |data| && line == data[..LineEnd(data)] && rest == data[LineEnd(data) + 1..]
    requires p.excludeAfter == [] && AllLinesPass(p) && Filtered(p, Include, rest) == rest
    ensures Filtered(p, Include, data) == data
  {
    assert IsLine(line);
    FilteredLine(p, Include, data);
    assert NextState(p, Include, line) == Include && Emitted(p, Include, line) == line + [NEWLINE];
    Common.AroundIndex(data, LineEnd(data));
  }

  lemma {:induction false} SwitchAgrees(p: Patterns, s: State, data: Bytes)
    requires FlagsMatch(p) && PassThruHarmless(p, s)
    ensures FilteredOrPassed(p, s, data) == Filtered(p, s, data)
    decreases |data|
  {
    var i := LineEnd(data);
    if i < |data| {
      var line := data[..i];
      var s' := NextState(p, s, line);
      var rest := data[i + 1..];
      if s == Exclude && s' == Include && !p.hasExcludeAfter {
        SwitchNow(p, data, line, rest);
      } else {
        NeverBack(p, s, line);
        SwitchAgrees(p, s', rest);
        LineAgrees(p, s, data, line, rest);
      }
    }
  }

  lemma {:induction false} LineAgrees(p: Patterns, s: State, data: Bytes, line: Bytes, rest: Bytes)
    requires LineEnd(data) < |data| && line == data[..LineEnd(data)] && rest == data[LineEnd(data) + 1..]
    requires !(s == Exclude && NextState(p, s, line) == Include && !p.hasExcludeAfter)
    requires FilteredOrPassed(p, NextState(p, s, line), rest) == Filtered(p, NextState(p, s, line), rest)
    ensures FilteredOrPassed(p, s, data) == Filtered(p, s, data)
  {
    FilteredLine(p, s, data);
  }

  lemma {:induction false} SwitchNow(p: Patterns, data: Bytes, line: Bytes, rest: Bytes)
    requires LineEnd(data) < |data| && line == data[..LineEnd(data)] && rest == data[LineEnd(data) + 1..]
    requires FlagsMatch(p) && PassThruHarmless(p, Exclude) && !p.hasExcludeAfter
             && NextState(p, Exclude, line) == Include
    ensures Filtered(p, Exclude, data) == rest
  {
    assert IsLine(line);
    AllPass(p, rest);
    FilteredLine(p, Exclude, data);
    assert Emitted(p, Exclude, line) == [];
    Common.EmptyConcat(rest);
  }

  lemma {:induction false} NeverBack(p: Patterns, s: State, line: Bytes)
    requires FlagsMatch(p) && PassThruHarmless(p, s)
    requires !(s == Exclude && NextState(p, s, line) == Include && !p.hasExcludeAfter)
    ensures PassThruHarmless(p, NextState(p, s, line))
  {
  }

  /** The shortcuts change nothing on any data exactly when the pass-through one is harmless. */
  lemma {:induction false} ShortcutsAgreeIff(p: Patterns, s: State)
    requires FlagsMatch(p)
    ensures (forall data :: FilteredOrPassed(p, s, data) == Filtered(p, s, data)) <==> PassThruHarmless(p, s)
  {
    if PassThruHarmless(p, s) {
      forall data ensures FilteredOrPassed(p, s, data) == Filtered(p, s, data) {
        SwitchAgrees(p, s, data);
      }
    } else {
      var first :| IsLine(first) && NextState(p, Exclude, first) == Include;
      var second :| IsLine(second) && !Selected(p, second);
      PassThruDiffers(p, first, second);
    }
  }

  lemma {:induction false} LineEndOf(line: Bytes, rest: Bytes)
    requires IsLine(line)
    ensures var data := line + [NEWLINE] + rest;
            LineEnd(data) == |line| && data[..|line|] == line && data[|line| + 1..] == rest
  {
    var data := line + [NEWLINE] + rest;
    assert data[|line|] == NEWLINE;
    assert forall k | 0 <= k < |line| :: data[k] == line[k];
  }

  /** A line the per-line patterns reject is still emitted after the switch. */
  lemma {:induction false} PassThruDiffers(p: Patterns, first: Bytes, second: Bytes)
    requires IsLine(first) && NextState(p, Exclude, first) == Include && !p.hasExcludeAfter && p.excludeAfter == []
    requires IsLine(second) && !Selected(p, second)
    ensures var data := first + [NEWLINE] + (second + [NEWLINE]);
            FilteredOrPassed(p, Exclude, data) == second + [NEWLINE] && Filtered(p, Exclude, data) == []
  {
    var tail := second + [NEWLINE];
    LineEndOf(first, tail);
    LineEndOf(second, []);
    assert tail == second + [NEWLINE] + [];
    assert Filtered(p, Include, []) == [];
    assert Filtered(p, Include, tail) == [];
  }
}
