/** Stable sorting. */
module Sorting {
  import opened Bytes
  import opened Seqs
  import opened Assoc

  function PlaceBy<T, K>(key: T -> K, lt: (K, K) -> bool, x: T, xs: seq<T>): (r: seq<T>)
    ensures multiset(r) == multiset([x]) + multiset(xs) && |r| == |xs| + 1
  {
    if xs == [] then [x]
    else if lt(key(xs[0]), key(x)) then
      assert xs == [xs[0]] + xs[1..];
      [xs[0]] + PlaceBy(key, lt, x, xs[1..])
    else [x] + xs
  }

  /** Insertion from the right: of two equal keys the earlier stays first. */
  function SortBy<T, K>(key: T -> K, lt: (K, K) -> bool, xs: seq<T>): (r: seq<T>)
    ensures multiset(r) == multiset(xs) && |r| == |xs|
  {
    if xs == [] then []
    else
      assert xs == [xs[0]] + xs[1..];
      PlaceBy(key, lt, xs[0], SortBy(key, lt, xs[1..]))
  }

  /** By a text key, as texts and byte strings compare. */
  function Sort<T>(key: T -> Str, xs: seq<T>): (r: seq<T>)
    ensures multiset(r) == multiset(xs) && |r| == |xs|
  {
    SortBy(key, Less, xs)
  }

  lemma Member<T>(xs: seq<T>, ys: seq<T>, x: T)
    requires multiset(xs) == multiset(ys) && x in xs
    ensures x in ys
  {
    assert x in multiset(xs);
  }

  lemma {:induction false} PlaceSorted<T, K(!new)>(key: T -> K, lt: (K, K) -> bool, x: T, xs: seq<T>)
    requires StrictOrder(lt) && Sorted(key, lt, xs) && forall y <- xs :: key(y) != key(x)
    ensures Sorted(key, lt, PlaceBy(key, lt, x, xs))
  {
    if xs != [] {
      var r := PlaceBy(key, lt, x, xs);
      if lt(key(xs[0]), key(x)) {
        var p := PlaceBy(key, lt, x, xs[1..]);
        PlaceSorted(key, lt, x, xs[1..]);
        forall j | 0 <= j < |p| ensures lt(key(xs[0]), key(p[j])) {
          Member(p, [x] + xs[1..], p[j]);
        }
      } else {
        assert lt(key(x), key(xs[0]));
        forall j | 0 < j < |r| ensures lt(key(r[0]), key(r[j])) { }
      }
    }
  }

  lemma {:induction false} SortSorted<T, K(!new)>(key: T -> K, lt: (K, K) -> bool, xs: seq<T>)
    requires StrictOrder(lt) && Distinct(key, xs)
    ensures Sorted(key, lt, SortBy(key, lt, xs))
  {
    if xs != [] {
      hide StrictOrder, Sorted;
      var s := SortBy(key, lt, xs[1..]);
      SortSorted(key, lt, xs[1..]);
      forall y <- s ensures key(y) != key(xs[0]) { Member(s, xs[1..], y); }
      PlaceSorted(key, lt, xs[0], s);
    }
  }

  lemma SameFirst<T, K(!new)>(key: T -> K, lt: (K, K) -> bool, xs: seq<T>, ys: seq<T>)
    requires StrictOrder(lt) && xs != [] && ys != [] && Sorted(key, lt, xs) && Sorted(key, lt, ys) && multiset(xs) == multiset(ys)
    ensures xs[0] == ys[0]
  {
    Member(xs, ys, xs[0]);
    Member(ys, xs, ys[0]);
    var i :| 0 <= i < |ys| && ys[i] == xs[0];
    var j :| 0 <= j < |xs| && xs[j] == ys[0];
  }

  lemma SameRest<T>(xs: seq<T>, ys: seq<T>)
    requires xs != [] && ys != [] && xs[0] == ys[0] && multiset(xs) == multiset(ys)
    ensures multiset(xs[1..]) == multiset(ys[1..])
  {
    assert xs == [xs[0]] + xs[1..] && ys == [ys[0]] + ys[1..];
    assert multiset(xs[1..]) == multiset(xs) - multiset([xs[0]]);
    assert multiset(ys[1..]) == multiset(ys) - multiset([ys[0]]);
  }

  lemma SameLength<T>(xs: seq<T>, ys: seq<T>)
    requires multiset(xs) == multiset(ys)
    ensures |xs| == |ys|
  {
    assert |xs| == |multiset(xs)| == |multiset(ys)| == |ys|;
  }

  /** A strictly sorted list is determined by what is in it. */
  lemma {:induction false} SortedUnique<T, K(!new)>(key: T -> K, lt: (K, K) -> bool, xs: seq<T>, ys: seq<T>)
    requires StrictOrder(lt) && Sorted(key, lt, xs) && Sorted(key, lt, ys) && multiset(xs) == multiset(ys)
    ensures xs == ys
  {
    hide StrictOrder;
    SameLength(xs, ys);
    if xs != [] {
      SameFirst(key, lt, xs, ys);
      SameRest(xs, ys);
      SortedUnique(key, lt, xs[1..], ys[1..]);
      assert xs == [xs[0]] + xs[1..] && ys == [ys[0]] + ys[1..];
    }
  }

  lemma SortedDistinct<T, K(!new)>(key: T -> K, lt: (K, K) -> bool, xs: seq<T>)
    requires StrictOrder(lt) && Sorted(key, lt, xs)
    ensures Distinct(key, xs)
  {
    forall i, j | 0 <= i < j < |xs| ensures key(xs[i]) != key(xs[j]) { assert lt(key(xs[i]), key(xs[j])); }
  }

  lemma {:induction false} UpsertNew<T, K>(key: T -> K, lt: (K, K) -> bool, x: T, l: seq<T>)
    requires forall y <- l :: key(y) != key(x)
    ensures multiset(Upsert(key, lt, x, l)) == multiset([x]) + multiset(l)
  {
    if l != [] && !lt(key(x), key(l[0])) {
      UpsertNew(key, lt, x, l[1..]);
      assert l == [l[0]] + l[1..];
    }
  }

  lemma {:induction false} MapHolds<T, K>(key: T -> K, lt: (K, K) -> bool, l: seq<T>)
    requires Distinct(key, l)
    ensures multiset(FromList(key, lt, l)) == multiset(l)
  {
    if l != [] {
      var m, x := l[..|l| - 1], l[|l| - 1];
      MapHolds(key, lt, m);
      forall y <- FromList(key, lt, m) ensures key(y) != key(x) { Member(FromList(key, lt, m), m, y); }
      UpsertNew(key, lt, x, FromList(key, lt, m));
      assert l == m + [x];
    }
  }

  /** Entries with distinct keys, sorted, are the map they are the entries of. */
  lemma MapIsSort<T, K(!new)>(key: T -> K, lt: (K, K) -> bool, l: seq<T>)
    requires StrictOrder(lt) && Distinct(key, l)
    ensures FromList(key, lt, l) == SortBy(key, lt, l)
  {
    hide StrictOrder, Sorted, Distinct;
    MapHolds(key, lt, l);
    FromListSorted(key, lt, l);
    SortSorted(key, lt, l);
    SortedUnique(key, lt, FromList(key, lt, l), SortBy(key, lt, l));
  }

  /** With distinct keys, two lists sort alike exactly when one is a rearrangement of the other. */
  lemma SortExact<T>(key: T -> Str, xs: seq<T>, ys: seq<T>)
    requires Distinct(key, xs) && Distinct(key, ys)
    ensures Sort(key, xs) == Sort(key, ys) <==> multiset(xs) == multiset(ys)
  {
    hide StrictOrder, Sorted, Distinct, Less;
    StringOrder();
    SortSorted(key, Less, xs);
    SortSorted(key, Less, ys);
    if multiset(xs) == multiset(ys) {
      SortedUnique(key, Less, Sort(key, xs), Sort(key, ys));
    }
  }

  lemma {:induction false} PlaceEach<A, B, K>(key: A -> K, lt: (K, K) -> bool, f: A -> B, key2: B -> K, x: A, xs: seq<A>)
    requires forall y :: key2(f(y)) == key(y)
    ensures PlaceBy(key2, lt, f(x), Mapped(f, xs)) == Mapped(f, PlaceBy(key, lt, x, xs))
  {
    if xs != [] && lt(key(xs[0]), key(x)) {
      PlaceEach(key, lt, f, key2, x, xs[1..]);
      assert Mapped(f, xs)[1..] == Mapped(f, xs[1..]);
    }
  }

  /** Sorting commutes with a change that keeps the keys. */
  lemma {:induction false} SortEachBy<A, B, K>(key: A -> K, lt: (K, K) -> bool, f: A -> B, key2: B -> K, xs: seq<A>)
    requires forall y :: key2(f(y)) == key(y)
    ensures SortBy(key2, lt, Mapped(f, xs)) == Mapped(f, SortBy(key, lt, xs))
  {
    if xs != [] {
      SortEachBy(key, lt, f, key2, xs[1..]);
      assert Mapped(f, xs)[1..] == Mapped(f, xs[1..]);
      PlaceEach(key, lt, f, key2, xs[0], SortBy(key, lt, xs[1..]));
    }
  }

  lemma SortEach<A, B>(key: A -> Str, f: A -> B, key2: B -> Str, xs: seq<A>)
    requires forall y :: key2(f(y)) == key(y)
    ensures Sort(key2, Mapped(f, xs)) == Mapped(f, Sort(key, xs))
  {
    SortEachBy(key, Less, f, key2, xs);
  }
}
