/** Datatypes shared by every component of the model, and facts about sequences. */
module Common {

  datatype Option<+T> = None | Some(value: T)

  /** How a Go call ends: a value, a returned error, or a run-time panic. */
  datatype Outcome<+T> = Ok(value: T) | Error | Panic

  function Without<T>(xs: seq<T>, k: nat): seq<T>
    requires k < |xs|
  {
    xs[..k] + xs[k + 1..]
  }

  lemma {:induction false} ConcatAssoc<T>(a: seq<T>, b: seq<T>, c: seq<T>)
    ensures (a + b) + c == a + (b + c)
  {
  }

  lemma {:induction false} EmptyConcat<T>(a: seq<T>)
    ensures [] + a == a
  {
  }

  lemma {:induction false} ConcatEmpty<T>(a: seq<T>)
    ensures a + [] == a
  {
  }

  lemma {:induction false} ConcatTail<T>(a: seq<T>, b: seq<T>)
    requires a != []
    ensures (a + b)[0] == a[0] && (a + b)[1..] == a[1..] + b
  {
  }

  lemma {:induction false} WithoutMultiset<T>(xs: seq<T>, k: nat)
    requires k < |xs|
    ensures multiset(xs) == multiset(Without(xs, k)) + multiset{xs[k]}
  {
    assert xs == xs[..k] + [xs[k]] + xs[k + 1..];
  }

  lemma {:induction false} DropLast<T>(a: seq<T>, x: T)
    ensures (a + [x])[..|a + [x]| - 1] == a
  {
  }

  lemma {:induction false} TakeOneMore<T>(a: seq<T>, i: nat)
    requires i < |a|
    ensures a[..i + 1] == a[..i] + [a[i]]
  {
  }

  lemma {:induction false} AroundIndex<T>(a: seq<T>, i: nat)
    requires i < |a|
    ensures a == a[..i] + [a[i]] + a[i + 1..]
  {
  }

  lemma {:induction false} InsertedLater<T>(a: seq<T>, x: T, n: nat, i: nat)
    requires i <= n <= |a|
    ensures var all := a[..n] + [x] + a[n..];
            all[..i] == a[..i] && all[i..] == a[i..][..n - i] + [x] + a[i..][n - i..]
  {
  }

  lemma {:induction false} PrefixAndRest<T>(p: seq<T>, all: seq<T>)
    requires p <= all
    ensures all == p + all[|p|..]
  {
  }

  lemma {:induction false} InEither<T>(a: seq<T>, b: seq<T>, x: T)
    ensures x in a + b <==> x in a || x in b
  {
  }
}
