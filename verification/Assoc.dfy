/** Hash maps as association lists sorted by key: the same map always has the same list. */
module Assoc {
  import opened Bytes
  import opened Seqs

  ghost predicate StrictOrder<K(!new)>(lt: (K, K) -> bool) {
    && (forall a :: !lt(a, a))
    && (forall a, b :: lt(a, b) || a == b || lt(b, a))
    && (forall a, b, c :: lt(a, b) && lt(b, c) ==> lt(a, c))
  }

  ghost predicate Sorted<T, K>(key: T -> K, lt: (K, K) -> bool, l: seq<T>) {
    forall i, j | 0 <= i < j < |l| :: lt(key(l[i]), key(l[j]))
  }

  /** `HashMap::insert`: a second value for a key replaces the first. */
  function Upsert<T, K(==)>(key: T -> K, lt: (K, K) -> bool, x: T, l: seq<T>): seq<T> {
    if l == [] || lt(key(x), key(l[0])) then [x] + l
    else if key(x) == key(l[0]) then [x] + l[1..]
    else [l[0]] + Upsert(key, lt, x, l[1..])
  }

  /** The map built by inserting the elements of `l` in order. */
  function FromList<T, K(==)>(key: T -> K, lt: (K, K) -> bool, l: seq<T>): seq<T> {
    if l == [] then [] else Upsert(key, lt, l[|l| - 1], FromList(key, lt, l[..|l| - 1]))
  }

  lemma {:induction false} UpsertMembers<T, K>(key: T -> K, lt: (K, K) -> bool, x: T, l: seq<T>)
    ensures x in Upsert(key, lt, x, l)
    ensures forall y <- Upsert(key, lt, x, l) :: y == x || y in l
    ensures forall y <- l :: y in Upsert(key, lt, x, l) || key(y) == key(x)
    ensures |Upsert(key, lt, x, l)| <= |l| + 1
  {
    if l == [] || lt(key(x), key(l[0])) {
    } else if key(x) == key(l[0]) {
    } else {
      UpsertMembers(key, lt, x, l[1..]);
    }
  }

  lemma {:induction false} UpsertSorted<T, K(!new)>(key: T -> K, lt: (K, K) -> bool, x: T, l: seq<T>)
    requires StrictOrder(lt) && Sorted(key, lt, l)
    ensures Sorted(key, lt, Upsert(key, lt, x, l))
  {
    if l == [] || lt(key(x), key(l[0])) {
    } else if key(x) == key(l[0]) {
    } else {
      var t := Upsert(key, lt, x, l[1..]);
      UpsertSorted(key, lt, x, l[1..]);
      UpsertMembers(key, lt, x, l[1..]);
      forall y | y in t ensures lt(key(l[0]), key(y)) {
        if y != x {
          var i :| 0 <= i < |l[1..]| && l[1..][i] == y;
          assert l[i + 1] == y;
        }
      }
    }
  }

  lemma {:induction false} FromListSorted<T, K(!new)>(key: T -> K, lt: (K, K) -> bool, l: seq<T>)
    requires StrictOrder(lt)
    ensures Sorted(key, lt, FromList(key, lt, l))
    ensures forall y <- FromList(key, lt, l) :: y in l
    ensures |FromList(key, lt, l)| <= |l|
  {
    if l != [] {
      var m := l[..|l| - 1];
      FromListSorted(key, lt, m);
      UpsertSorted(key, lt, l[|l| - 1], FromList(key, lt, m));
      UpsertMembers(key, lt, l[|l| - 1], FromList(key, lt, m));
    }
  }

  /** Inserting past the end of a sorted list appends. */
  lemma {:induction false} UpsertLast<T, K(!new)>(key: T -> K, lt: (K, K) -> bool, x: T, l: seq<T>)
    requires StrictOrder(lt) && forall y <- l :: lt(key(y), key(x))
    ensures Upsert(key, lt, x, l) == l + [x]
  {
    if l != [] {
      assert l[0] in l;
      UpsertLast(key, lt, x, l[1..]);
      assert [l[0]] + l[1..] == l;
    }
  }

  /** A sorted list is the map it denotes. */
  lemma {:induction false} FromSorted<T, K(!new)>(key: T -> K, lt: (K, K) -> bool, l: seq<T>)
    requires StrictOrder(lt) && Sorted(key, lt, l)
    ensures FromList(key, lt, l) == l
  {
    if l != [] {
      var m := l[..|l| - 1];
      FromSorted(key, lt, m);
      UpsertLast(key, lt, l[|l| - 1], m);
      assert m + [l[|l| - 1]] == l;
    }
  }

  lemma {:induction false} UpsertTotal<T, K>(key: T -> K, lt: (K, K) -> bool, w: T -> nat, x: T, l: seq<T>)
    ensures Sum(w, Upsert(key, lt, x, l)) <= w(x) + Sum(w, l)
  {
    if l == [] || lt(key(x), key(l[0])) {
      SumJoin(w, [x], l);
    } else if key(x) == key(l[0]) {
      SumJoin(w, [x], l[1..]);
    } else {
      UpsertTotal(key, lt, w, x, l[1..]);
      SumJoin(w, [l[0]], Upsert(key, lt, x, l[1..]));
    }
  }

  /** Building the map never weighs more than the list it was built from. */
  lemma {:induction false} FromListTotal<T, K>(key: T -> K, lt: (K, K) -> bool, w: T -> nat, l: seq<T>)
    ensures Sum(w, FromList(key, lt, l)) <= Sum(w, l)
  {
    if l != [] {
      var m, x := l[..|l| - 1], l[|l| - 1];
      FromListTotal(key, lt, w, m);
      UpsertTotal(key, lt, w, x, FromList(key, lt, m));
      SumJoin(w, m, [x]);
      assert m + [x] == l;
    }
  }

  lemma {:induction false} LessIrreflexive(a: Str)
    ensures !Less(a, a)
  {
    if a != [] { LessIrreflexive(a[1..]); }
  }

  lemma {:induction false} LessTrichotomy(a: Str, b: Str)
    ensures Less(a, b) || a == b || Less(b, a)
  {
    if a != [] && b != [] && a[0] == b[0] {
      LessTrichotomy(a[1..], b[1..]);
      assert a[1..] == b[1..] ==> a == [a[0]] + a[1..] == b;
    }
  }

  lemma {:induction false} LessTransitive(a: Str, b: Str, c: Str)
    requires Less(a, b) && Less(b, c)
    ensures Less(a, c)
  {
    if a != [] && a[0] == b[0] == c[0] {
      LessTransitive(a[1..], b[1..], c[1..]);
    }
  }

  lemma StringOrder()
    ensures StrictOrder(Less)
  {
    forall a ensures !Less(a, a) { LessIrreflexive(a); }
    forall a, b ensures Less(a, b) || a == b || Less(b, a) { LessTrichotomy(a, b); }
    forall a, b, c | Less(a, b) && Less(b, c) ensures Less(a, c) { LessTransitive(a, b, c); }
  }

  predicate Below(a: u32, b: u32) { a < b }

  lemma OffsetOrder()
    ensures StrictOrder(Below)
  {
  }
}
