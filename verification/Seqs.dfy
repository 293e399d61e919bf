/** Sequences: mapping, sums and keys, for all modules. */
module Seqs {
  function Max(a: nat, b: nat): nat { if a < b then b else a }

  function Mapped<A, B>(f: A -> B, xs: seq<A>): (r: seq<B>)
    ensures |r| == |xs| && forall i | 0 <= i < |xs| :: r[i] == f(xs[i])
  {
    if xs == [] then [] else [f(xs[0])] + Mapped(f, xs[1..])
  }

  function Sum<T>(w: T -> nat, xs: seq<T>): nat {
    if xs == [] then 0 else w(xs[0]) + Sum(w, xs[1..])
  }

  lemma {:induction false} SumJoin<T>(w: T -> nat, a: seq<T>, b: seq<T>)
    ensures Sum(w, a + b) == Sum(w, a) + Sum(w, b)
  {
    if a == [] {
      assert a + b == b;
    } else {
      assert (a + b)[1..] == a[1..] + b;
      SumJoin(w, a[1..], b);
    }
  }

  lemma {:induction false} SumPrefix<T>(w: T -> nat, xs: seq<T>, i: nat)
    requires i < |xs|
    ensures Sum(w, xs[..i + 1]) == Sum(w, xs[..i]) + w(xs[i]) <= Sum(w, xs)
    decreases |xs| - i
  {
    assert xs[..i + 1] == xs[..i] + [xs[i]];
    SumJoin(w, xs[..i], [xs[i]]);
    if i + 1 < |xs| {
      SumPrefix(w, xs, i + 1);
    } else {
      assert xs[..i + 1] == xs;
    }
  }

  lemma SumNone<T>(w: T -> nat, xs: seq<T>)
    ensures Sum(w, xs[..0]) == 0
  {
  }

  lemma {:induction false} SumAtLeast<T>(w: T -> nat, xs: seq<T>, i: nat)
    requires i < |xs|
    ensures w(xs[i]) <= Sum(w, xs)
  {
    if i > 0 {
      SumAtLeast(w, xs[1..], i - 1);
    }
  }

  ghost predicate Distinct<T, K>(key: T -> K, xs: seq<T>) { forall i, j | 0 <= i < j < |xs| :: key(xs[i]) != key(xs[j]) }

  lemma AddNothing<T>(a: seq<T>)
    ensures a + [] == a && [] + a == a
  {
  }

  lemma Regroup<T>(a: seq<T>, b: seq<T>, c: seq<T>)
    ensures a + b + c == a + (b + c)
  {
  }
}
