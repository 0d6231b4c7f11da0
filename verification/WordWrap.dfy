/**
 Word wrap. A line longer than its limit is cut at the last white space that
 lets it fit, or inside a word when there is none; the rest becomes the next line.
 */
module WordWrap {
  import opened Common

  predicate Ws(c: char) {
    c == ' ' || c == '\t' || c == '\r' || c == '\n'
  }

  predicate Blank(s: string) {
    forall i | 0 <= i < |s| :: Ws(s[i])
  }

  // ----- the three scans of one turn

  /** The last white space after position 0 and up to at, or 0. */
  function BackToSpace(s: string, at: nat): (i: nat)
    requires at < |s|
    ensures i <= at && (i > 0 ==> Ws(s[i])) && forall k | i < k <= at :: !Ws(s[k])
  {
    if at == 0 || Ws(s[at]) then at else BackToSpace(s, at - 1)
  }

  /** The first position after at that is not white space, or |s|. */
  function NextWord(s: string, at: nat): (n: nat)
    requires at < |s|
    ensures at < n <= |s| && (n < |s| ==> !Ws(s[n])) && forall k | at < k < n :: Ws(s[k])
    decreases |s| - at
  {
    if at + 1 == |s| || !Ws(s[at + 1]) then at + 1 else NextWord(s, at + 1)
  }

  /** The last position up to at that is not white space, or 0. */
  function BackToWord(s: string, at: nat): (e: nat)
    requires at < |s|
    ensures e <= at && (e > 0 ==> !Ws(s[e])) && forall k | e < k <= at :: Ws(s[k])
  {
    if at == 0 || !Ws(s[at]) then at else BackToWord(s, at - 1)
  }

  /** What one turn of the loop does to the last line: the lines it finishes, and the new last line. */
  datatype Turn = Turn(done: seq<string>, rest: string)

  function Step(s: string, limit: nat, width: int): Turn
    requires width <= limit < |s| && (width >= 0 || BackToSpace(s, limit) > 0)
  {
    var at := BackToSpace(s, limit);
    if at == 0 then Turn([s[..width]], s[width..])
    else
      var n := NextWord(s, at);
      var e := BackToWord(s, at);
      if e == 0 then Turn([], if n < |s| then s[n..] else s)
      else if n < |s| then Turn([s[..e + 1]], s[n..])
      else Turn([], s[..e + 1])
  }

  /** A turn shortens the last line or leaves all as it was; the latter exactly on a character followed by blanks. */
  lemma {:induction false} StepShortens(s: string, limit: nat, width: nat)
    requires 1 <= width <= limit < |s|
    ensures var t := Step(s, limit, width);
            if Blank(s[1..]) then t == Turn([], s) else |t.rest| < |s|
  {
    var at := BackToSpace(s, limit);
    if Blank(s[1..]) {
      assert Ws(s[1..][limit - 1]);
      assert forall k | 0 < k < |s| :: s[k] == s[1..][k - 1];
    } else {
      var k :| 0 <= k < |s[1..]| && !Ws(s[1..][k]);
      assert !Ws(s[k + 1]);
    }
  }

  /** The lines that the loop makes of the last line s; None when it never ends. */
  function Run(s: string, limit: nat, width: nat): (r: Option<seq<string>>)
    requires 1 <= width <= limit
    ensures r.Some? ==> r.value != []
    decreases |s|
  {
    if |s| <= limit then Some([s])
    else
      var t := Step(s, limit, width);
      if Blank(s[1..]) then None
      else
        StepShortens(s, limit, width);
        match Run(t.rest, width, width)
        case None => None
        case Some(more) => Some(t.done + more)
  }

  /** The limit of the first line. */
  function Limit(indent: int, width: int): (l: int)
    ensures l >= width
  {
    if indent > 0 then width + indent else width
  }

  method FindSplit(s: string, limit: nat) returns (splitAt: nat)
    requires limit < |s|
    ensures splitAt == BackToSpace(s, limit)
  {
    splitAt := limit;
    var ch := s[splitAt];
    while splitAt > 0 && !Ws(ch)
      invariant splitAt <= limit && ch == s[splitAt]
      invariant BackToSpace(s, splitAt) == BackToSpace(s, limit)
    {
      splitAt := splitAt - 1;
      ch := s[splitAt];
    }
  }

  method FindNext(s: string, splitAt: nat) returns (nextAt: nat)
    requires splitAt < |s|
    ensures nextAt == NextWord(s, splitAt)
  {
    nextAt := splitAt;
    var ch := ' ';
    while Ws(ch)
      invariant splitAt <= nextAt < |s|
      invariant Ws(ch) ==> NextWord(s, nextAt) == NextWord(s, splitAt)
      invariant !Ws(ch) ==> nextAt == NextWord(s, splitAt)
      decreases |s| - nextAt, Ws(ch)
    {
      nextAt := nextAt + 1;
      if nextAt == |s| {
        break;
      }
      ch := s[nextAt];
    }
  }

  method FindEnd(s: string, at: nat) returns (splitAt: nat)
    requires at < |s|
    ensures splitAt == BackToWord(s, at)
  {
    splitAt := at;
    var ch := s[splitAt];
    while splitAt > 0 && Ws(ch)
      invariant splitAt <= at && ch == s[splitAt]
      invariant BackToWord(s, splitAt) == BackToWord(s, at)
    {
      splitAt := splitAt - 1;
      ch := s[splitAt];
    }
  }

  /** One turn of the wrapping loop on the list of lines; not ok where a negative width indexes out of range. */
  method TakeTurn(before: seq<string>, limit: nat, width: int) returns (lines: seq<string>, ok: bool)
    requires before != [] && width <= limit < |before[|before| - 1]|
    ensures ok <==> width >= 0 || BackToSpace(before[|before| - 1], limit) > 0
    ensures ok ==> var t := Step(before[|before| - 1], limit, width);
                   lines == before[..|before| - 1] + t.done + [t.rest]
  {
    var lastLine := |before| - 1;
    lines, ok := before, true;
    var currentLine := lines[lastLine];
    var splitAt := FindSplit(currentLine, limit);
    if splitAt > 0 {
      var nextAt := FindNext(currentLine, splitAt);
      splitAt := FindEnd(currentLine, splitAt);
      if splitAt == 0 {
        if nextAt < |currentLine| {
          lines := lines[lastLine := currentLine[nextAt..]];
        }
      } else {
        lines := lines[lastLine := currentLine[..splitAt + 1]];
        if nextAt < |currentLine| {
          lines := lines + [currentLine[nextAt..]];
        }
      }
    } else if width < 0 {
      ok := false;
    } else {
      lines := lines + [currentLine[width..]];
      lines := lines[lastLine := currentLine[..width]];
    }
  }

  /** What becomes of a call, for all arguments: lines, no end, or a panic. */
  function Wrapped(input: string, indent: int, width: int): Outcome<Option<seq<string>>> {
    if |input| <= Limit(indent, width) then Ok(Some([input]))
    else if width < 0 then Panic
    else if width == 0 then Ok(None)
    else Ok(Run(input, Limit(indent, width), width))
  }

  /**
   The wrapping loop, watched for a number of turns: Ok(None) when it has not ended.
   A loop that ends or panics has done so after |input| + 1 turns; the others never do.
   */
  method SplitString(input: string, indent: int, width: int, turns: nat) returns (r: Outcome<Option<seq<string>>>)
    ensures r == Wrapped(input, indent, width) || (r == Ok(None) && turns <= |input|)
  {
    var testWidth := if indent > 0 then width + indent else width;
    var lines, taken := [input], 0;
    StartOngoing(input, indent, width);
    while |lines[|lines| - 1]| > testWidth
      invariant taken <= turns && Ongoing(input, indent, width, lines, testWidth, taken)
      decreases turns - taken
    {
      if taken == turns {
        return Ok(None);
      }
      if testWidth < 0 {
        return Panic;
      }
      var before, limit := lines, testWidth;
      testWidth := width;
      var ok;
      lines, ok := TakeTurn(before, limit, width);
      if !ok {
        return Panic;
      }
      TurnOngoing(input, indent, width, before, limit, taken, lines);
      taken := taken + 1;
    }
    if width > 0 {
      NothingLeft(lines, testWidth, width);
    }
    r := Ok(Some(lines));
  }

  /** What the loop makes of the lines so far when it goes on. */
  function Resumed(lines: seq<string>, limit: nat, width: nat): Option<seq<string>>
    requires lines != [] && 1 <= width <= limit
  {
    match Run(lines[|lines| - 1], limit, width)
    case None => None
    case Some(more) => Some(lines[..|lines| - 1] + more)
  }

  ghost predicate Ongoing(input: string, indent: int, width: int, lines: seq<string>, testWidth: int, taken: nat) {
    && lines != []
    && (if taken == 0 then lines == [input] && testWidth == Limit(indent, width)
        else |input| > Limit(indent, width) >= 0 && testWidth == width)
    && (width > 0 ==>
          && var whole := Run(input, Limit(indent, width), width);
          && Resumed(lines, testWidth, width) == whole
          && (whole.Some? ==> |lines[|lines| - 1]| + taken <= |input|))
    && (width == 0 && taken > 0 ==> lines[|lines| - 1] != "")
    && (width < 0 ==> taken <= 1)
  }

  lemma {:induction false} StartOngoing(input: string, indent: int, width: int)
    ensures Ongoing(input, indent, width, [input], Limit(indent, width), 0)
  {
    if width > 0 {
      match Run(input, Limit(indent, width), width)
      case None =>
      case Some(more) => EmptyConcat(more);
    }
  }

  lemma {:induction false} TurnOngoing(input: string, indent: int, width: int, before: seq<string>, limit: nat,
                                       taken: nat, lines: seq<string>)
    requires Ongoing(input, indent, width, before, limit, taken) && width <= limit < |before[|before| - 1]|
    requires width >= 0 || BackToSpace(before[|before| - 1], limit) > 0
    requires var t := Step(before[|before| - 1], limit, width); lines == before[..|before| - 1] + t.done + [t.rest]
    ensures Ongoing(input, indent, width, lines, width, taken + 1)
  {
    if width > 0 {
      TurnResumes(before, limit, width, lines);
    }
  }

  lemma {:induction false} TurnResumes(before: seq<string>, limit: nat, width: nat, lines: seq<string>)
    requires before != [] && 1 <= width <= limit < |before[|before| - 1]|
    requires var t := Step(before[|before| - 1], limit, width); lines == before[..|before| - 1] + t.done + [t.rest]
    ensures Resumed(lines, width, width) == Resumed(before, limit, width)
    ensures Resumed(before, limit, width).Some? ==> |lines[|lines| - 1]| < |before[|before| - 1]|
  {
    var s, done := before[|before| - 1], before[..|before| - 1];
    StepShortens(s, limit, width);
    var t := Step(s, limit, width);
    DropLast(done + t.done, t.rest);
    match Run(t.rest, width, width)
    case None =>
    case Some(more) => ConcatAssoc(done, t.done, more);
  }

  lemma {:induction false} NothingLeft(lines: seq<string>, limit: nat, width: nat)
    requires lines != [] && 1 <= width <= limit && |lines[|lines| - 1]| <= limit
    ensures Resumed(lines, limit, width) == Some(lines)
  {
    TakeOneMore(lines, |lines| - 1);
    assert lines[..|lines|] == lines;
  }

  // ----- all inputs: when the loop ends, and that lines fit

  /** The last line and its limit after some turns of the loop, or where the loop ended before. */
  function After(s: string, limit: nat, width: nat, turns: nat): (string, nat)
    requires 1 <= width <= limit
  {
    if turns == 0 || |s| <= limit then (s, limit) else After(Step(s, limit, width).rest, width, width, turns - 1)
  }

  predicate StillRunning(s: string, limit: nat, width: nat, turns: nat)
    requires 1 <= width <= limit
  {
    var (line, l) := After(s, limit, width, turns);
    |line| > l
  }

  /** Run has no value exactly where the loop is still running after every number of turns. */
  lemma {:induction false} NoneIsForever(s: string, limit: nat, width: nat)
    requires 1 <= width <= limit
    ensures Run(s, limit, width).None? <==> forall turns: nat :: StillRunning(s, limit, width, turns)
  {
    if Run(s, limit, width).None? {
      forall turns: nat ensures StillRunning(s, limit, width, turns) {
        NoneRunsOn(s, limit, width, turns);
      }
    } else {
      var turns := SomeStops(s, limit, width);
    }
  }

  lemma {:induction false} NoneRunsOn(s: string, limit: nat, width: nat, turns: nat)
    requires 1 <= width <= limit && Run(s, limit, width).None?
    ensures StillRunning(s, limit, width, turns)
    decreases turns
  {
    StepShortens(s, limit, width);
    if turns > 0 {
      NoneRunsOn(Step(s, limit, width).rest, width, width, turns - 1);
    }
  }

  lemma {:induction false} SomeStops(s: string, limit: nat, width: nat) returns (turns: nat)
    requires 1 <= width <= limit && Run(s, limit, width).Some?
    ensures !StillRunning(s, limit, width, turns)
    decreases |s|
  {
    if |s| <= limit {
      turns := 0;
    } else {
      StepShortens(s, limit, width);
      var more := SomeStops(Step(s, limit, width).rest, width, width);
      turns := more + 1;
    }
  }

  /** A text that does not end in white space. */
  predicate Closed(s: string) {
    s == "" || !Ws(s[|s| - 1])
  }

  /** The text without the white space at its end. */
  function TrimRight(s: string): (u: string)
    ensures Closed(u) && u <= s && Blank(s[|u|..])
  {
    if Closed(s) then s
    else
      var u := TrimRight(s[..|s| - 1]);
      assert s[|u|..] == s[..|s| - 1][|u|..] + [s[|s| - 1]];
      u
  }

  function Last(lines: seq<string>): string
    requires lines != []
  {
    lines[|lines| - 1]
  }

  /** The blanks cannot be dropped: at most one character precedes them on the last line, which they make too long. */
  predicate Overhangs(last: string, blanks: nat, limit: nat) {
    |last| <= 1 && |last| + blanks > limit
  }

  /** A turn on a text that does not end in white space leaves such a text, shorter and not empty. */
  lemma {:induction false} ClosedTurn(u: string, limit: nat, width: nat)
    requires 1 <= width <= limit < |u| && Closed(u)
    ensures var t := Step(u, limit, width);
            Closed(t.rest) && t.rest != "" && |t.rest| < |u| && !Blank(u[1..])
  {
    assert u[1..][|u| - 2] == u[|u| - 1];
    StepShortens(u, limit, width);
    var at := BackToSpace(u, limit);
    if at > 0 {
      NextIsLocal(u, u, at);
    }
  }

  /** While the text alone is too long, a turn does the same with and without the blanks after it. */
  lemma {:induction false} SameTurn(u: string, b: string, limit: nat, width: nat)
    requires 1 <= width <= limit < |u| && Closed(u) && Blank(b)
    ensures var t := Step(u, limit, width); Step(u + b, limit, width) == Turn(t.done, t.rest + b)
  {
    var s := u + b;
    BackIsLocal(u, s, limit);
    var at := BackToSpace(u, limit);
    if at == 0 {
      SplitBefore(u, b, width);
    } else {
      NextIsLocal(u, s, at);
      SplitBefore(u, b, NextWord(u, at));
      SplitBefore(u, b, BackToWord(u, at) + 1);
    }
  }

  lemma {:induction false} SplitBefore(u: string, b: string, n: nat)
    requires n <= |u|
    ensures (u + b)[..n] == u[..n] && (u + b)[n..] == u[n..] + b
  {
  }

  lemma {:induction false} BackIsLocal(u: string, s: string, limit: nat)
    requires u <= s && limit < |u|
    ensures BackToSpace(s, limit) == BackToSpace(u, limit) && BackToWord(s, limit) == BackToWord(u, limit)
    decreases limit
  {
    if limit > 0 {
      BackIsLocal(u, s, limit - 1);
    }
  }

  lemma {:induction false} NextIsLocal(u: string, s: string, at: nat)
    requires u <= s && at < |u| - 1 && !Ws(u[|u| - 1])
    ensures NextWord(u, at) < |u| && NextWord(s, at) == NextWord(u, at)
    ensures BackToWord(s, at) == BackToWord(u, at)
    decreases |u| - at
  {
    BackIsLocal(u, s, at);
    if Ws(u[at + 1]) {
      NextIsLocal(u, s, at + 1);
    }
  }

  /** A text of two characters or more that fits loses the blanks after it. */
  lemma {:induction false} BlanksDropped(u: string, b: string, limit: nat, width: nat)
    requires 1 <= width <= limit && 2 <= |u| <= limit < |u + b| && Closed(u) && Blank(b)
    ensures Step(u + b, limit, width) == Turn([], u) && !Blank((u + b)[1..])
  {
    var s := u + b;
    assert s[1..][|u| - 2] == u[|u| - 1];
    assert s[limit] == b[limit - |u|];
    assert forall k | |u| <= k < |s| :: s[k] == b[k - |u|];
    assert NextWord(s, limit) == |s| && BackToWord(s, limit) == |u| - 1;
    assert s[..|u|] == u;
  }

  /** A text that does not end in white space is always wrapped. */
  lemma {:induction false} ClosedEnds(u: string, limit: nat, width: nat)
    requires 1 <= width <= limit && Closed(u)
    ensures Run(u, limit, width).Some?
    decreases |u|
  {
    if |u| > limit {
      ClosedTurn(u, limit, width);
      ClosedEnds(Step(u, limit, width).rest, width, width);
    }
  }

  /** The end of the loop, and its last line, are those of the loop on what a turn leaves. */
  lemma {:induction false} RunGoesOn(s: string, limit: nat, width: nat)
    requires 1 <= width <= limit < |s| && !Blank(s[1..])
    ensures var r, more := Run(s, limit, width), Run(Step(s, limit, width).rest, width, width);
            (r.Some? <==> more.Some?) && (r.Some? ==> Last(r.value) == Last(more.value))
  {
  }

  lemma {:induction false} EndsUnless(u: string, b: string, limit: nat, width: nat)
    requires 1 <= width <= limit && Closed(u) && Blank(b)
    ensures Run(u, limit, width).Some?
    ensures Run(u + b, limit, width).None?
       <==> Overhangs(Last(Run(u, limit, width).value), |b|, if |u| <= limit then limit else width)
    decreases |u|
  {
    ClosedEnds(u, limit, width);
    if |u| > limit {
      var rest := Step(u, limit, width).rest;
      ClosedTurn(u, limit, width);
      SameTurn(u, b, limit, width);
      EndsUnless(rest, b, width, width);
      assert (u + b)[1..][|u| - 2] == u[|u| - 1];
      RunGoesOn(u, limit, width);
      RunGoesOn(u + b, limit, width);
    } else if |u + b| > limit {
      if |u| >= 2 {
        BlanksDropped(u, b, limit, width);
        ClosedEnds(u, width, width);
      } else {
        assert forall k | 0 <= k < |(u + b)[1..]| :: (u + b)[1..][k] == b[k + 1 - |u|];
      }
    }
  }

  /**
   The loop runs for ever exactly on an input whose white space at the end does
   not fit after the last line of the rest, which is of one character or none.
   */
  lemma {:induction false} NeverEndsIff(s: string, limit: nat, width: nat)
    requires 1 <= width <= limit
    ensures Run(TrimRight(s), limit, width).Some?
    ensures (forall turns: nat :: StillRunning(s, limit, width, turns))
       <==> Overhangs(Last(Run(TrimRight(s), limit, width).value), |s| - |TrimRight(s)|,
                      if |TrimRight(s)| <= limit then limit else width)
  {
    var u := TrimRight(s);
    PrefixAndRest(u, s);
    ForeverIff(u, s[|u|..], limit, width);
  }

  lemma {:induction false} ForeverIff(u: string, b: string, limit: nat, width: nat)
    requires 1 <= width <= limit && Closed(u) && Blank(b)
    ensures Run(u, limit, width).Some?
    ensures (forall turns: nat :: StillRunning(u + b, limit, width, turns))
       <==> Overhangs(Last(Run(u, limit, width).value), |b|, if |u| <= limit then limit else width)
  {
    EndsUnless(u, b, limit, width);
    NoneIsForever(u + b, limit, width);
  }

  /** One letter and as many blanks as the width: the loop never ends. */
  lemma {:induction false} NeverEndsWitness(blanks: string, width: nat)
    requires width >= 1 && |blanks| >= width && Blank(blanks)
    ensures forall turns: nat :: StillRunning("a" + blanks, width, width, turns)
  {
    ForeverIff("a", blanks, width, width);
  }

  predicate Fits(lines: seq<string>, limit: nat, width: nat) {
    forall i | 0 <= i < |lines| :: |lines[i]| <= if i == 0 then limit else width
  }

  /** Whenever the loop ends, the first line fits in its limit and every other line in the width. */
  lemma {:induction false} RunFits(s: string, limit: nat, width: nat)
    requires 1 <= width <= limit && Run(s, limit, width).Some?
    ensures Fits(Run(s, limit, width).value, limit, width)
    decreases |s|
  {
    if |s| > limit {
      var t := Step(s, limit, width);
      StepShortens(s, limit, width);
      RunFits(t.rest, width, width);
    }
  }

  // ----- words

  function WordEnd(s: string): (e: nat)
    ensures e <= |s| && (e < |s| ==> Ws(s[e])) && forall k | 0 <= k < e :: !Ws(s[k])
  {
    if s == "" || Ws(s[0]) then 0 else 1 + WordEnd(s[1..])
  }

  /** The maximal runs of non-white characters. */
  function Words(s: string): seq<string>
    decreases |s|
  {
    if s == "" then []
    else if Ws(s[0]) then Words(s[1..])
    else [s[..WordEnd(s)]] + Words(s[WordEnd(s)..])
  }

  function AllWords(lines: seq<string>): seq<string> {
    if lines == [] then [] else Words(lines[0]) + AllWords(lines[1..])
  }

  lemma {:induction false} WordEndIs(s: string, e: nat)
    requires e <= |s| && (e < |s| ==> Ws(s[e])) && forall k | 0 <= k < e :: !Ws(s[k])
    ensures WordEnd(s) == e
  {
    if WordEnd(s) < e {
      assert false;
    } else if e < WordEnd(s) {
      assert false;
    }
  }

  lemma {:induction false} WordsOfBlank(g: string, b: string)
    requires Blank(g)
    ensures Words(g + b) == Words(b)
    decreases |g|
  {
    if g == "" {
      assert g + b == b;
    } else {
      assert Ws(g[0]) && (g + b)[1..] == g[1..] + b;
      WordsOfBlank(g[1..], b);
    }
  }

  /** White space between two texts separates their words. */
  lemma {:induction false} WordsConcat(a: string, g: string, b: string)
    requires g != "" && Blank(g)
    ensures Words(a + g + b) == Words(a) + Words(b)
    decreases |a|
  {
    var s := a + g + b;
    if a == "" {
      assert s == g + b;
      WordsOfBlank(g, b);
    } else if Ws(a[0]) {
      assert s[1..] == a[1..] + g + b;
      WordsConcat(a[1..], g, b);
    } else {
      var e := WordEnd(a);
      WordEndIs(s, e);
      assert s[..e] == a[..e] && s[e..] == a[e..] + g + b;
      WordsConcat(a[e..], g, b);
      assert [a[..e]] + (Words(a[e..]) + Words(b)) == ([a[..e]] + Words(a[e..])) + Words(b);
    }
  }

  // ----- greedy wrapping

  /** A text starts and ends with a word. */
  predicate Trim(s: string) {
    s != "" && !Ws(s[0]) && !Ws(s[|s| - 1])
  }

  predicate AllWithin(words: seq<string>, lo: nat, hi: nat) {
    forall i | 0 <= i < |words| :: lo <= |words[i]| <= hi
  }

  /** No leading or trailing white space, and words of lo to width characters. */
  predicate Tidy(s: string, lo: nat, width: nat) {
    (s == "" || Trim(s)) && AllWithin(Words(s), lo, width)
  }

  predicate EndsWord(s: string, e: nat) {
    0 < e <= |s| && !Ws(s[e - 1]) && (e < |s| ==> Ws(s[e]))
  }

  /** A greedy break of s after e characters: only white space is skipped, and no longer line would have fitted. */
  predicate Break(s: string, e: nat, n: nat, limit: nat) {
    && EndsWord(s, e) && e <= limit < |s| && e < n < |s|
    && Blank(s[e..n]) && !Ws(s[n])
    && forall e' | e < e' <= limit :: !EndsWord(s, e')
  }

  /** The lines are the greedy wrap of s: the first within limit, the others within width. */
  ghost predicate Wraps(s: string, lines: seq<string>, limit: nat, width: nat)
    decreases |lines|
  {
    && lines != []
    && if |lines| == 1 then lines[0] == s && |s| <= limit
       else exists n: nat :: IsHead(s, lines[0], n, limit) && Wraps(s[n..], lines[1..], width, width)
  }

  predicate IsHead(s: string, line: string, n: nat, limit: nat) {
    Break(s, |line|, n, limit) && line == s[..|line|]
  }

  /** What the loop keeps of the greedy lines: a line of one character is lost unless it is the last. */
  function Kept(lines: seq<string>): seq<string> {
    if |lines| <= 1 then lines
    else (if |lines[0]| == 1 then [] else [lines[0]]) + Kept(lines[1..])
  }

  predicate NoLone(lines: seq<string>) {
    forall i | 0 <= i < |lines| - 1 :: |lines[i]| != 1
  }

  /** Text s has one greedy wrap. */
  lemma {:induction false} WrapsUnique(s: string, a: seq<string>, b: seq<string>, limit: nat, width: nat)
    requires Wraps(s, a, limit, width) && Wraps(s, b, limit, width)
    ensures a == b
    decreases |a|
  {
    if |a| > 1 && |b| > 1 {
      var n: nat :| IsHead(s, a[0], n, limit) && Wraps(s[n..], a[1..], width, width);
      var m: nat :| IsHead(s, b[0], m, limit) && Wraps(s[m..], b[1..], width, width);
      BreakUnique(s, |a[0]|, n, |b[0]|, m, limit);
      WrapsUnique(s[n..], a[1..], b[1..], width, width);
      assert a == [a[0]] + a[1..] && b == [b[0]] + b[1..];
    }
  }

  lemma {:induction false} BreakUnique(s: string, e: nat, n: nat, e': nat, n': nat, limit: nat)
    requires Break(s, e, n, limit) && Break(s, e', n', limit)
    ensures e == e' && n == n'
  {
    assert e == e';
    assert forall k | e <= k < n :: s[k] == s[e..n][k - e];
    assert forall k | e <= k < n' :: s[k] == s[e..n'][k - e];
  }

  lemma {:induction false} WrapsWords(s: string, lines: seq<string>, limit: nat, width: nat)
    requires Wraps(s, lines, limit, width)
    ensures AllWords(lines) == Words(s)
    decreases |lines|
  {
    if |lines| == 1 {
      assert AllWords(lines) == Words(s) + AllWords(lines[1..]);
    } else {
      var n: nat :| IsHead(s, lines[0], n, limit) && Wraps(s[n..], lines[1..], width, width);
      WrapsWords(s[n..], lines[1..], width, width);
      BreakWords(s, |lines[0]|, n, limit);
    }
  }

  lemma {:induction false} BreakWords(s: string, e: nat, n: nat, limit: nat)
    requires Break(s, e, n, limit)
    ensures Words(s) == Words(s[..e]) + Words(s[n..])
  {
    assert s == s[..e] + s[e..n] + s[n..];
    WordsConcat(s[..e], s[e..n], s[n..]);
  }

  // ----- one turn on a tidy text

  /** A tidy text too long for its limit is broken greedily; the rest is tidy. */
  lemma {:induction false} TidyBreak(s: string, lo: nat, limit: nat, width: nat) returns (e: nat, n: nat)
    requires 1 <= width <= limit < |s| && Tidy(s, lo, width)
    ensures Break(s, e, n, limit) && Tidy(s[n..], lo, width) && !Blank(s[1..])
    ensures Step(s, limit, width) == Turn(if e == 1 then [] else [s[..e]], s[n..])
  {
    var w := WordEnd(s);
    assert Words(s)[0] == s[..w];
    var at := BackToSpace(s, limit);
    assert at > 0;
    n := NextWord(s, at);
    e := BackToWord(s, at) + 1;
    assert s[1..][|s| - 2] == s[|s| - 1];
    assert n < |s|;
    assert EndsWord(s, e);
    assert Blank(s[e..n]);
    BreakWords(s, e, n, limit);
    TidyRest(s, Words(s[..e]), n, lo, width);
  }

  lemma {:induction false} TidyRest(s: string, before: seq<string>, n: nat, lo: nat, width: nat)
    requires n < |s| && !Ws(s[n]) && !Ws(s[|s| - 1])
    requires AllWithin(Words(s), lo, width) && Words(s) == before + Words(s[n..])
    ensures Tidy(s[n..], lo, width)
  {
    var k := |before|;
    assert forall i | 0 <= i < |Words(s[n..])| :: Words(s[n..])[i] == Words(s)[k + i];
  }

  /** On every tidy text the loop ends and keeps the lines of the greedy wrap, save the lone characters. */
  lemma {:induction false} RunWraps(s: string, lo: nat, limit: nat, width: nat) returns (lines: seq<string>)
    requires 1 <= width <= limit && Tidy(s, lo, width)
    ensures Wraps(s, lines, limit, width) && Run(s, limit, width) == Some(Kept(lines))
    decreases |s|
  {
    if |s| <= limit {
      lines := [s];
    } else {
      var e, n := TidyBreak(s, lo, limit, width);
      var more := RunWraps(s[n..], lo, width, width);
      lines := [s[..e]] + more;
      assert lines[1..] == more;
      assert IsHead(s, lines[0], n, limit);
    }
  }

  // ----- what is kept

  /** Every line of a greedy wrap but the last holds a word. */
  lemma {:induction false} LineHasWord(line: string)
    requires line != "" && !Ws(line[|line| - 1])
    ensures |Words(line)| >= 1
    decreases |line|
  {
    if Ws(line[0]) {
      LineHasWord(line[1..]);
    }
  }

  lemma {:induction false} KeptWords(s: string, lines: seq<string>, limit: nat, width: nat)
    requires Wraps(s, lines, limit, width)
    ensures NoLone(lines) ==> Kept(lines) == lines
    ensures |AllWords(Kept(lines))| <= |AllWords(lines)|
    ensures !NoLone(lines) ==> |AllWords(Kept(lines))| < |AllWords(lines)|
    decreases |lines|
  {
    if |lines| > 1 {
      var n: nat :| IsHead(s, lines[0], n, limit) && Wraps(s[n..], lines[1..], width, width);
      KeptWords(s[n..], lines[1..], width, width);
      LineHasWord(lines[0]);
      KeptMore(lines);
    }
  }

  lemma {:induction false} KeptMore(lines: seq<string>)
    requires |lines| > 1 && |Words(lines[0])| >= 1
    requires NoLone(lines[1..]) ==> Kept(lines[1..]) == lines[1..]
    requires |AllWords(Kept(lines[1..]))| <= |AllWords(lines[1..])|
    requires !NoLone(lines[1..]) ==> |AllWords(Kept(lines[1..]))| < |AllWords(lines[1..])|
    ensures NoLone(lines) ==> Kept(lines) == lines
    ensures |AllWords(Kept(lines))| <= |AllWords(lines)|
    ensures !NoLone(lines) ==> |AllWords(Kept(lines))| < |AllWords(lines)|
  {
    LoneFirst(lines);
    KeptFirst(lines);
    assert lines == [lines[0]] + lines[1..];
  }

  lemma {:induction false} LoneFirst(lines: seq<string>)
    requires |lines| > 1
    ensures NoLone(lines) <==> |lines[0]| != 1 && NoLone(lines[1..])
  {
    assert forall i | 0 < i < |lines| :: lines[i] == lines[1..][i - 1];
    if |lines[0]| != 1 && NoLone(lines[1..]) {
      forall i | 0 <= i < |lines| - 1 ensures |lines[i]| != 1 {
        assert i > 0 ==> |lines[1..][i - 1]| != 1;
      }
    }
  }

  lemma {:induction false} KeptFirst(lines: seq<string>)
    requires |lines| > 1
    ensures |lines[0]| == 1 ==> Kept(lines) == Kept(lines[1..])
    ensures |lines[0]| != 1 ==> Kept(lines) == [lines[0]] + Kept(lines[1..])
    ensures |lines[0]| != 1 ==> AllWords(Kept(lines)) == Words(lines[0]) + AllWords(Kept(lines[1..]))
  {
    var rest := Kept(lines[1..]);
    EmptyConcat(rest);
    assert ([lines[0]] + rest)[1..] == rest;
  }

  /**
   For every tidy text: the loop ends, its lines are the one greedy wrap without
   the lone characters, and no word is lost exactly when there is none of those.
   */
  lemma {:induction false} WrapKeepsWordsIff(input: string, indent: int, width: nat) returns (lines: seq<string>)
    requires width >= 1 && Tidy(input, 1, width)
    ensures Wraps(input, lines, if indent > 0 then width + indent else width, width)
    ensures Wrapped(input, indent, width) == Ok(Some(Kept(lines)))
    ensures AllWords(Kept(lines)) == Words(input) <==> NoLone(lines)
  {
    var limit := Limit(indent, width);
    lines := RunWraps(input, 1, limit, width);
    WrapsWords(input, lines, limit, width);
    KeptWords(input, lines, limit, width);
  }

  lemma {:induction false} NoLoneLines(s: string, lines: seq<string>, limit: nat, width: nat)
    requires Wraps(s, lines, limit, width) && Tidy(s, 2, width)
    ensures NoLone(lines)
    decreases |lines|
  {
    if |lines| > 1 {
      var n: nat :| IsHead(s, lines[0], n, limit) && Wraps(s[n..], lines[1..], width, width);
      var e := |lines[0]|;
      var w := WordEnd(s);
      assert Words(s)[0] == s[..w];
      assert e >= w;
      BreakWords(s, e, n, limit);
      TidyRest(s, Words(s[..e]), n, 2, width);
      NoLoneLines(s[n..], lines[1..], width, width);
      assert forall i | 0 < i < |lines| :: lines[i] == lines[1..][i - 1];
    }
  }

  /** Words of 2 to width characters: the lines are the greedy wrap, they fit, and every word is kept in order. */
  lemma {:induction false} WrapIsGreedy(input: string, indent: int, width: nat) returns (lines: seq<string>)
    requires width >= 1 && Tidy(input, 2, width)
    ensures Wrapped(input, indent, width) == Ok(Some(lines))
    ensures Wraps(input, lines, if indent > 0 then width + indent else width, width)
    ensures Fits(lines, if indent > 0 then width + indent else width, width)
    ensures AllWords(lines) == Words(input)
  {
    var limit := Limit(indent, width);
    lines := RunWraps(input, 2, limit, width);
    NoLoneLines(input, lines, limit, width);
    KeptWords(input, lines, limit, width);
    WrapsWords(input, lines, limit, width);
    RunFits(input, limit, width);
  }

  /** A one-letter word alone on a line is lost. */
  lemma {:induction false} LoneWordLost()
    ensures Tidy("a bcd", 1, 3) && Run("a bcd", 3, 3) == Some(["bcd"])
  {
    var s := "a bcd";
    assert s[1..] == " bcd" && s[2..] == "bcd" && s[..1] == "a";
    assert WordEnd(s) == 1 && WordEnd("bcd") == 3 by {
      WordEndIs(s, 1);
      WordEndIs("bcd", 3);
    }
    assert " bcd"[1..] == "bcd" && "bcd"[3..] == "" && "bcd"[..3] == "bcd";
    assert Words(s) == ["a", "bcd"];
    var e, n := TidyBreak(s, 1, 3, 3);
    assert e == 1 && n == 2;
    assert Run("bcd", 3, 3) == Some(["bcd"]);
    assert Step(s, 3, 3) == Turn([], "bcd");
    assert [] + ["bcd"] == ["bcd"];
  }
}
