/** Word wrap on all inputs: which characters its lines keep, long words and white space anywhere included. */
module WrapLetters {
  import opened Common
  import opened WordWrap

  const WHITE := " \t\r\n"

  /** The text without its white space. */
  function Letters(s: string): string {
    if s == "" then "" else (if s[0] in WHITE then "" else [s[0]]) + Letters(s[1..])
  }

  function Flat(lines: seq<string>): string {
    if lines == [] then "" else lines[0] + Flat(lines[1..])
  }

  lemma {:induction false} LettersConcat(a: string, b: string)
    ensures Letters(a + b) == Letters(a) + Letters(b)
    decreases |a|
  {
    if a == "" {
      EmptyConcat(b);
      EmptyConcat(Letters(b));
    } else {
      assert (a + b)[1..] == a[1..] + b;
      LettersConcat(a[1..], b);
      ConcatAssoc(if a[0] in WHITE then "" else [a[0]], Letters(a[1..]), Letters(b));
    }
  }

  lemma {:induction false} LettersBlank(s: string)
    requires Blank(s)
    ensures Letters(s) == ""
    decreases |s|
  {
    if s != "" {
      assert Ws(s[0]);
      LettersBlank(s[1..]);
    }
  }

  lemma {:induction false} LettersOne(c: char)
    ensures Letters([c]) == if c in WHITE then "" else [c]
  {
    assert [c][1..] == "";
    ConcatEmpty([c]);
  }

  /** White space between two parts of a text. */
  lemma {:induction false} LettersAround(s: string, i: nat, j: nat)
    requires i <= j <= |s| && Blank(s[i..j])
    ensures Letters(s) == Letters(s[..i]) + Letters(s[j..])
  {
    assert s == s[..i] + (s[i..j] + s[j..]);
    LettersConcat(s[..i], s[i..j] + s[j..]);
    LettersConcat(s[i..j], s[j..]);
    LettersBlank(s[i..j]);
    EmptyConcat(Letters(s[j..]));
  }

  lemma {:induction false} FlatOne(line: string)
    ensures Flat([line]) == line
  {
    assert [line][1..] == [];
    ConcatEmpty(line);
  }

  lemma {:induction false} FlatConcat(a: seq<string>, b: seq<string>)
    ensures Flat(a + b) == Flat(a) + Flat(b)
    decreases |a|
  {
    if a == [] {
      EmptyConcat(b);
      EmptyConcat(Flat(b));
    } else {
      assert (a + b)[1..] == a[1..] + b;
      FlatConcat(a[1..], b);
      ConcatAssoc(a[0], Flat(a[1..]), Flat(b));
    }
  }

  /** White space from the second character to j, none from there to the limit, but a letter somewhere after j. */
  predicate GapUpTo(s: string, j: nat, limit: nat) {
    && 1 <= j <= limit < |s|
    && (forall k | 1 <= k <= j :: s[k] in WHITE) && (forall k | j < k <= limit :: s[k] !in WHITE)
    && exists k | j < k < |s| :: s[k] !in WHITE
  }

  /** The line starts with a word of one letter, and the next word does not end within the limit. */
  predicate LoneLetter(s: string, limit: nat)
    requires limit < |s|
  {
    s[0] !in WHITE && exists j | 1 <= j <= limit :: GapUpTo(s, j, limit)
  }

  /** What a turn drops: the lone letter, and white space. */
  lemma {:induction false} TurnKeepsLetters(s: string, limit: nat, width: nat)
    requires 1 <= width <= limit < |s|
    ensures var t := Step(s, limit, width);
            Letters(s) == Letters(Flat(t.done)) + (if LoneLetter(s, limit) then [s[0]] else "") + Letters(t.rest)
  {
    var at := BackToSpace(s, limit);
    LoneIff(s, limit);
    if at == 0 {
      CutKeeps(s, width, width);
    } else {
      var n, e := NextWord(s, at), BackToWord(s, at);
      assert Blank(s[e + 1..n]);
      if e == 0 {
        HeadDropped(s, n);
      } else {
        CutKeeps(s, e + 1, n);
      }
    }
  }

  lemma {:induction false} GapIsSplit(s: string, j: nat, limit: nat)
    requires GapUpTo(s, j, limit)
    ensures BackToSpace(s, limit) == j && BackToWord(s, j) == 0 && NextWord(s, j) < |s|
  {
    assert forall k | 0 <= k < |s| :: Ws(s[k]) <==> s[k] in WHITE;
    var at := BackToSpace(s, limit);
    assert Ws(s[j]);
  }

  lemma {:induction false} SplitIsGap(s: string, j: nat, limit: nat)
    requires limit < |s| && j == BackToSpace(s, limit) > 0 && BackToWord(s, j) == 0 && NextWord(s, j) < |s|
    ensures GapUpTo(s, j, limit)
  {
    assert forall k | 0 <= k < |s| :: Ws(s[k]) <==> s[k] in WHITE;
    assert s[NextWord(s, j)] !in WHITE;
  }

  /** Exactly the turns that find one letter before the white space at which they would break. */
  lemma {:induction false} LoneIff(s: string, limit: nat)
    requires limit < |s|
    ensures var at := BackToSpace(s, limit);
            LoneLetter(s, limit)
            <==> at > 0 && BackToWord(s, at) == 0 && NextWord(s, at) < |s| && s[0] !in WHITE
  {
    var at := BackToSpace(s, limit);
    if j: nat :| 1 <= j <= limit && GapUpTo(s, j, limit) {
      GapIsSplit(s, j, limit);
    }
    if at > 0 && BackToWord(s, at) == 0 && NextWord(s, at) < |s| {
      SplitIsGap(s, at, limit);
    }
  }

  /** A line of i characters, white space up to j, and the rest. */
  lemma {:induction false} CutKeeps(s: string, i: nat, j: nat)
    requires i <= j <= |s| && Blank(s[i..j])
    ensures Letters(s) == Letters(Flat([s[..i]])) + "" + Letters(s[j..])
    ensures j == |s| ==> Letters(s) == Letters(Flat([])) + "" + Letters(s[..i])
  {
    LettersAround(s, i, j);
    FlatOne(s[..i]);
    ConcatEmpty(Letters(s[..i]));
    EmptyConcat(Letters(s[..i]));
    if j == |s| {
      assert Letters(s[j..]) == "";
    }
  }

  /** One character, white space up to n, and the rest, if any. */
  lemma {:induction false} HeadDropped(s: string, n: nat)
    requires 1 <= n <= |s| && Blank(s[1..n])
    ensures Letters(s) == Letters(Flat([])) + (if s[0] in WHITE then "" else [s[0]]) + Letters(s[n..])
    ensures Letters(s) == Letters(Flat([])) + "" + Letters(s)
  {
    LettersAround(s, 1, n);
    assert s[..1] == [s[0]];
    LettersOne(s[0]);
    EmptyConcat(if s[0] in WHITE then "" else [s[0]]);
    EmptyConcat(Letters(s));
  }

  // ----- whole runs

  /** If the loop is still running after some turns, the next does not find a lone letter. */
  predicate NotLone(s: string, limit: nat, width: nat, turns: nat)
    requires 1 <= width <= limit
  {
    var (line, l) := After(s, limit, width, turns);
    |line| > l ==> !LoneLetter(line, l)
  }

  lemma {:induction false} NeverLone(s: string, limit: nat, width: nat)
    requires 1 <= width <= limit < |s|
    ensures (forall turns: nat :: NotLone(s, limit, width, turns))
       <==> !LoneLetter(s, limit) && forall turns: nat :: NotLone(Step(s, limit, width).rest, width, width, turns)
  {
    var rest := Step(s, limit, width).rest;
    assert NotLone(s, limit, width, 0) <==> !LoneLetter(s, limit);
    forall turns: nat ensures NotLone(s, limit, width, turns + 1) <==> NotLone(rest, width, width, turns) {
    }
    if !LoneLetter(s, limit) && forall turns: nat :: NotLone(rest, width, width, turns) {
      forall turns: nat ensures NotLone(s, limit, width, turns) {
        if turns > 0 {
          assert NotLone(rest, width, width, turns - 1);
          assert NotLone(s, limit, width, (turns - 1) + 1);
        }
      }
    }
    if forall turns: nat :: NotLone(s, limit, width, turns) {
      forall turns: nat ensures NotLone(rest, width, width, turns) {
        assert NotLone(s, limit, width, turns + 1);
      }
    }
  }

  lemma {:induction false} RunLetters(s: string, limit: nat, width: nat)
    requires 1 <= width <= limit && Run(s, limit, width).Some?
    ensures var kept := Letters(Flat(Run(s, limit, width).value));
            && |kept| <= |Letters(s)|
            && (kept == Letters(s) <==> forall turns: nat :: NotLone(s, limit, width, turns))
    decreases |s|
  {
    if |s| <= limit {
      FlatOne(s);
      forall turns: nat ensures NotLone(s, limit, width, turns) {
      }
    } else {
      var t := Step(s, limit, width);
      StepShortens(s, limit, width);
      RunLetters(t.rest, width, width);
      var more := Run(t.rest, width, width).value;
      TurnKeepsLetters(s, limit, width);
      NeverLone(s, limit, width);
      FlatConcat(t.done, more);
      LettersConcat(Flat(t.done), Flat(more));
      Cancelled(Letters(Flat(t.done)), if LoneLetter(s, limit) then [s[0]] else "", Letters(t.rest),
                Letters(Flat(more)));
    }
  }

  lemma {:induction false} Cancelled(done: string, lone: string, rest: string, more: string)
    requires |more| <= |rest|
    ensures |done + more| <= |done + lone + rest|
    ensures done + more == done + lone + rest <==> lone == "" && more == rest
  {
    if done + more == done + lone + rest {
      assert lone == "";
      assert (done + more)[|done|..] == more && (done + lone + rest)[|done|..] == rest;
    } else if lone == "" {
      ConcatEmpty(done);
    }
  }

  /**
   On every input, with words of any length and white space anywhere, for which the
   loop ends: the first line fits within the width plus a positive indent and the
   others within the width; and the lines hold all the letters of the input, in
   order, if and only if no turn finds a lone letter.
   */
  lemma {:induction false} SplitKeepsLettersIff(input: string, indent: int, width: nat, lines: seq<string>)
    requires width >= 1 && Wrapped(input, indent, width) == Ok(Some(lines))
    ensures var limit := if indent > 0 then width + indent else width;
            && Fits(lines, limit, width)
            && (Letters(Flat(lines)) == Letters(input) <==> forall turns: nat :: NotLone(input, limit, width, turns))
  {
    var limit := if indent > 0 then width + indent else width;
    assert Run(input, limit, width) == Some(lines);
    RunFits(input, limit, width);
    RunLetters(input, limit, width);
  }
}
