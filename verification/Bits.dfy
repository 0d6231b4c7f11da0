/** Packet data, addresses, masks and registers as bit strings, most significant bit first. */
module Bits {

  type Bits = seq<bool>

  function Zeros(n: nat): (b: Bits)
    ensures |b| == n
  {
    seq(n, _ => false)
  }

  /** The n-bit binary representation of the low n bits of v. */
  function Num(v: nat, n: nat): (b: Bits)
    ensures |b| == n
  {
    if n == 0 then [] else Num(v / 2, n - 1) + [v % 2 == 1]
  }

  function Value(b: Bits): nat {
    if b == [] then 0 else 2 * Value(b[..|b| - 1]) + if b[|b| - 1] then 1 else 0
  }

  lemma {:induction false} NumOfValue(b: Bits)
    ensures Num(Value(b), |b|) == b
    decreases |b|
  {
    if b != [] {
      NumOfValue(b[..|b| - 1]);
      assert b == b[..|b| - 1] + [b[|b| - 1]];
    }
  }

  function Pow2(n: nat): nat {
    if n == 0 then 1 else 2 * Pow2(n - 1)
  }

  lemma {:induction false} ValueOfNum(v: nat, n: nat)
    requires v < Pow2(n)
    ensures Value(Num(v, n)) == v
    decreases n
  {
    if n > 0 {
      ValueOfNum(v / 2, n - 1);
      var b := Num(v, n);
      assert b[..n - 1] == Num(v / 2, n - 1);
    }
  }

  /** A number that fits has one representation, and each bit string is one number's. */
  lemma {:induction false} NumIff(v: nat, b: Bits)
    requires v < Pow2(|b|)
    ensures Num(v, |b|) == b <==> v == Value(b)
  {
    NumOfValue(b);
    ValueOfNum(v, |b|);
  }

  // ----- byte strings, such as interface names

  type Name = s: seq<nat> | IsName(s)

  /** Bytes 1 to 255: no terminating zero inside. */
  predicate IsName(s: seq<nat>) {
    forall i | 0 <= i < |s| :: 0 < s[i] < 256
  }

  function Encode(s: seq<nat>): (b: Bits)
    ensures |b| == 8 * |s|
  {
    if s == [] then [] else Num(s[0], 8) + Encode(s[1..])
  }

  /** s in a fixed number of bytes, padded with zeros. */
  function Padded(s: seq<nat>, bytes: nat): (b: Bits)
    requires |s| <= bytes
    ensures |b| == 8 * bytes
  {
    Encode(s) + Zeros(8 * (bytes - |s|))
  }

  lemma {:induction false} ByteIff(x: nat, y: nat)
    requires x < 256 && y < 256
    ensures Num(x, 8) == Num(y, 8) <==> x == y
  {
    assert Pow2(8) == 256 by {
      assert Pow2(4) == 16;
    }
    ValueOfNum(x, 8);
    ValueOfNum(y, 8);
  }

  lemma {:induction false} ZeroNum(n: nat)
    ensures Num(0, n) == Zeros(n)
  {
    if n > 0 {
      ZeroNum(n - 1);
    }
  }

  lemma {:induction false} EncodeTail(s: seq<nat>, bytes: nat)
    requires s != [] && |s| <= bytes
    ensures Padded(s, bytes) == Num(s[0], 8) + Padded(s[1..], bytes - 1)
  {
  }

  /** Comparing as far as the terminating zero of n2 compares whole names. */
  lemma {:induction false} NameCompare(n1: Name, n2: Name, bytes: nat)
    requires |n1| <= bytes && |n2| < bytes
    ensures Padded(n1, bytes)[..8 * (|n2| + 1)] == Encode(n2) + Zeros(8) <==> n1 == n2
    decreases |n2|
  {
    var want := Encode(n2) + Zeros(8);
    var have := Padded(n1, bytes)[..8 * (|n2| + 1)];
    if n1 == [] {
      assert have == Zeros(8 * (|n2| + 1));
      if n2 != [] {
        ZeroNum(8);
        ByteIff(0, n2[0]);
        assert want[..8] == Num(n2[0], 8);
        assert have[..8] == Num(0, 8);
      }
    } else {
      EncodeTail(n1, bytes);
      assert have[..8] == Num(n1[0], 8);
      if n2 == [] {
        ZeroNum(8);
        ByteIff(0, n1[0]);
        assert want[..8] == Num(0, 8);
      } else {
        var t1: Name, t2: Name := n1[1..], n2[1..];
        NameCompare(t1, t2, bytes - 1);
        ByteIff(n1[0], n2[0]);
        assert want == Num(n2[0], 8) + (Encode(t2) + Zeros(8));
        assert have == Num(n1[0], 8) + Padded(t1, bytes - 1)[..8 * (|t2| + 1)];
        HeadsAndTails(Num(n1[0], 8), Padded(t1, bytes - 1)[..8 * (|t2| + 1)], Num(n2[0], 8), Encode(t2) + Zeros(8));
        assert n1 == [n1[0]] + t1 && n2 == [n2[0]] + t2;
      }
    }
  }

  lemma {:induction false} HeadsAndTails(h1: Bits, t1: Bits, h2: Bits, t2: Bits)
    requires |h1| == |h2|
    ensures h1 + t1 == h2 + t2 <==> h1 == h2 && t1 == t2
  {
    if h1 + t1 == h2 + t2 {
      assert h1 == (h1 + t1)[..|h1|] && t1 == (h1 + t1)[|h1|..];
      assert h2 == (h2 + t2)[..|h2|] && t2 == (h2 + t2)[|h2|..];
    }
  }
}
