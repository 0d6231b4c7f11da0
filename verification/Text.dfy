/** The string library functions behind the auth token: strings.Split and encoding/hex. */
module Text {
  import opened Common

  /** The position of the first sep, or |s|. */
  function IndexOf(s: string, sep: char): (i: nat)
    ensures i <= |s| && sep !in s[..i] && (i < |s| ==> s[i] == sep)
  {
    if s == "" || s[0] == sep then 0 else 1 + IndexOf(s[1..], sep)
  }

  /** strings.Split for a one-character separator; never empty. */
  function Split(s: string, sep: char): (parts: seq<string>)
    ensures parts != []
    decreases |s|
  {
    var i := IndexOf(s, sep);
    if i == |s| then [s] else [s[..i]] + Split(s[i + 1..], sep)
  }

  function Count(s: string, c: char): nat {
    if s == "" then 0 else (if s[0] == c then 1 else 0) + Count(s[1..], c)
  }

  lemma {:induction false} CountConcat(a: string, b: string, c: char)
    ensures Count(a + b, c) == Count(a, c) + Count(b, c)
    decreases |a|
  {
    if a == "" {
      assert a + b == b;
    } else {
      assert (a + b)[1..] == a[1..] + b;
      CountConcat(a[1..], b, c);
    }
  }

  lemma {:induction false} CountZero(s: string, c: char)
    ensures Count(s, c) == 0 <==> c !in s
    decreases |s|
  {
    if s != "" {
      CountZero(s[1..], c);
      assert s == [s[0]] + s[1..];
    }
  }

  lemma {:induction false} IndexIs(p: string, rest: string, sep: char)
    requires sep !in p
    ensures IndexOf(p + [sep] + rest, sep) == |p|
    decreases |p|
  {
    if p != "" {
      assert (p + [sep] + rest)[1..] == p[1..] + [sep] + rest;
      assert p == [p[0]] + p[1..];
      IndexIs(p[1..], rest, sep);
    }
  }

  lemma {:induction false} SplitHead(p: string, rest: string, sep: char)
    requires sep !in p
    ensures Split(p + [sep] + rest, sep) == [p] + Split(rest, sep)
  {
    var s := p + [sep] + rest;
    IndexIs(p, rest, sep);
    assert s[..|p|] == p && s[|p| + 1..] == rest;
  }

  /** Joining two texts with a separator joins their parts. */
  lemma {:induction false} SplitConcat(a: string, rest: string, sep: char)
    ensures Split(a + [sep] + rest, sep) == Split(a, sep) + Split(rest, sep)
    decreases |a|
  {
    var i := IndexOf(a, sep);
    if i == |a| {
      assert a[..i] == a;
      SplitHead(a, rest, sep);
    } else {
      var p, more := a[..i], a[i + 1..];
      AroundIndex(a, i);
      ConcatAssoc(p + [sep], more, [sep]);
      ConcatAssoc(p + [sep], more + [sep], rest);
      SplitHead(p, more + [sep] + rest, sep);
      SplitConcat(more, rest, sep);
      ConcatAssoc([p], Split(more, sep), Split(rest, sep));
    }
  }

  lemma {:induction false} SplitWhole(s: string, sep: char)
    requires sep !in s
    ensures Split(s, sep) == [s]
  {
    assert forall k | 0 <= k < |s| :: s[k] != sep;
  }

  /** There is one more part than separators. */
  lemma {:induction false} SplitCount(s: string, sep: char)
    ensures |Split(s, sep)| == 1 + Count(s, sep)
    decreases |s|
  {
    var i := IndexOf(s, sep);
    if i == |s| {
      assert s[..i] == s;
      CountZero(s, sep);
    } else {
      SplitCount(s[i + 1..], sep);
      assert s == s[..i] + ([sep] + s[i + 1..]);
      CountConcat(s[..i], [sep] + s[i + 1..], sep);
      CountZero(s[..i], sep);
      assert ([sep] + s[i + 1..])[1..] == s[i + 1..];
    }
  }

  // ----- hexadecimal

  type Byte = n: int | 0 <= n < 256

  function Digit(n: nat): char
    requires n < 16
  {
    if n < 10 then '0' + n as char else 'a' + (n - 10) as char
  }

  function HexValue(c: char): Option<nat> {
    if '0' <= c <= '9' then Some((c - '0') as nat)
    else if 'a' <= c <= 'f' then Some(10 + (c - 'a') as nat)
    else if 'A' <= c <= 'F' then Some(10 + (c - 'A') as nat)
    else None
  }

  function HexEncode(bs: seq<Byte>): string {
    if bs == [] then "" else [Digit(bs[0] / 16), Digit(bs[0] % 16)] + HexEncode(bs[1..])
  }

  /** hex.DecodeString: None for an odd length or a character that is no digit. */
  function HexDecode(s: string): Option<seq<Byte>> {
    if s == "" then Some([])
    else if |s| == 1 then None
    else match (HexValue(s[0]), HexValue(s[1]))
      case (Some(h), Some(l)) =>
        if h < 16 && l < 16 then
          match HexDecode(s[2..])
          case Some(rest) => Some([16 * h + l] + rest)
          case None => None
        else None
      case _ => None
  }

  /** The bytes decoded before the first pair that is no byte, or before an odd character. */
  function HexPrefix(s: string): (bs: seq<Byte>)
    ensures HexDecode(s).Some? ==> HexDecode(s) == Some(bs)
  {
    if |s| < 2 then []
    else match (HexValue(s[0]), HexValue(s[1]))
      case (Some(h), Some(l)) => if h < 16 && l < 16 then [16 * h + l] + HexPrefix(s[2..]) else []
      case _ => []
  }

  lemma {:induction false} DigitValue(n: nat)
    requires n < 16
    ensures HexValue(Digit(n)) == Some(n)
    ensures Digit(n) != '|' && Digit(n) != '~'
  {
  }

  /** Decoding inverts encoding, and an encoding holds no separator. */
  lemma {:induction false} HexRoundTrip(bs: seq<Byte>)
    ensures HexDecode(HexEncode(bs)) == Some(bs)
    ensures '|' !in HexEncode(bs) && '~' !in HexEncode(bs)
    decreases |bs|
  {
    if bs != [] {
      var s := HexEncode(bs);
      DigitValue(bs[0] / 16);
      DigitValue(bs[0] % 16);
      HexRoundTrip(bs[1..]);
      assert s[2..] == HexEncode(bs[1..]);
      assert bs == [bs[0]] + bs[1..];
    }
  }

  /** Every byte takes two digits, the high half first. */
  lemma {:induction false} HexDigitsAt(bs: seq<Byte>, i: nat)
    requires i < |bs|
    ensures var s, digits := HexEncode(bs), "0123456789abcdef";
            |s| == 2 * |bs| && s[2 * i] == digits[bs[i] / 16] && s[2 * i + 1] == digits[bs[i] % 16]
    decreases |bs|
  {
    if |bs| == 1 {
      assert HexEncode(bs[1..]) == "";
    } else {
      HexDigitsAt(bs[1..], if i == 0 then 0 else i - 1);
    }
    DigitIs(bs[i] / 16);
    DigitIs(bs[i] % 16);
  }

  lemma {:induction false} DigitIs(n: nat)
    requires n < 16
    ensures Digit(n) == "0123456789abcdef"[n]
  {
  }
}
