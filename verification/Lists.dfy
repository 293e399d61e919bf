/** Counted lists on the wire, over any element reader with a lawful inverse. */
module Lists {
  import opened Bytes
  import opened Seqs
  import opened Wire

  function ReadMany<T>(n: nat, f: Cur -> Read<T>, s: Cur): (r: Read<seq<T>>)
    ensures r.Got? ==> |r.v| == n
    decreases n
  {
    if n == 0 then Got([], s)
    else
      var (v, s) :- f(s);
      var (vs, s) :- ReadMany(n - 1, f, s);
      Got([v] + vs, s)
  }

  function PutMany<T>(vs: seq<T>, p: (T, Cur) -> Cur, s: Cur): Cur {
    if vs == [] then s else p(vs[0], PutMany(vs[1..], p, s))
  }

  function ReadList<T>(min: nat, over: nat, f: Cur -> Read<T>, s: Cur): (r: Read<seq<T>>) {
    var (n, s) :- ReadCount(min, over, s);
    ReadMany(n, f, s)
  }

  function PutList<T>(vs: seq<T>, p: (T, Cur) -> Cur, s: Cur): Cur {
    PutCount(|vs|, PutMany(vs, p, s))
  }

  ghost predicate All<T>(vs: seq<T>, fits: T -> bool) {
    forall i | 0 <= i < |vs| :: fits(vs[i])
  }

  ghost predicate FitsList<T>(vs: seq<T>, fits: T -> bool) {
    |vs| <= MAX_COUNT && All(vs, fits)
  }

  /** Whatever `f` reads fits, and putting it back gives the cursor before. */
  ghost predicate Sound<T>(f: Cur -> Read<T>, p: (T, Cur) -> Cur, fits: T -> bool) {
    forall s :: f(s).Got? ==> fits(f(s).v) && s == p(f(s).v, f(s).s)
  }

  /** Whatever fits is read back from where it was put. */
  ghost predicate Complete<T(!new)>(f: Cur -> Read<T>, p: (T, Cur) -> Cur, fits: T -> bool) {
    forall v, s | fits(v) :: f(p(v, s)) == Got(v, s)
  }

  ghost predicate AtLeast<T(!new)>(p: (T, Cur) -> Cur, min: nat) {
    forall v, s :: |p(v, s).rest| >= min + |s.rest|
  }

  ghost predicate Framing<T(!new)>(p: (T, Cur) -> Cur) {
    forall v, a, s :: p(v, Join(a, s)) == Join(p(v, a), s)
  }

  /** An element codec: reading and putting are inverses, an element takes at least `min` bytes, putting only prepends. */
  ghost predicate Lawful<T(!new)>(f: Cur -> Read<T>, p: (T, Cur) -> Cur, fits: T -> bool, min: nat) {
    Sound(f, p, fits) && Complete(f, p, fits) && AtLeast(p, min) && Framing(p)
  }

  lemma {:induction false} ManySound<T>(n: nat, f: Cur -> Read<T>, p: (T, Cur) -> Cur, fits: T -> bool, s: Cur)
    requires Sound(f, p, fits)
    ensures var r := ReadMany(n, f, s); r.Got? ==> All(r.v, fits) && s == PutMany(r.v, p, r.s)
    decreases n
  {
    if n > 0 && f(s).Got? {
      ManySound(n - 1, f, p, fits, f(s).s);
      var r := ReadMany(n, f, s);
      if r.Got? {
        assert r.v[1..] == ReadMany(n - 1, f, f(s).s).v;
      }
    }
  }

  lemma {:induction false} ManyComplete<T(!new)>(vs: seq<T>, f: Cur -> Read<T>, p: (T, Cur) -> Cur, fits: T -> bool, s: Cur)
    requires Complete(f, p, fits) && All(vs, fits)
    ensures ReadMany(|vs|, f, PutMany(vs, p, s)) == Got(vs, s)
  {
    if vs != [] {
      ManyComplete(vs[1..], f, p, fits, s);
      assert fits(vs[0]);
      assert f(PutMany(vs, p, s)) == Got(vs[0], PutMany(vs[1..], p, s));
      assert [vs[0]] + vs[1..] == vs;
    }
  }

  lemma {:induction false} ManyAtLeast<T(!new)>(vs: seq<T>, p: (T, Cur) -> Cur, min: nat, s: Cur)
    requires AtLeast(p, min)
    ensures |PutMany(vs, p, s).rest| >= |vs| * min + |s.rest|
  {
    if vs != [] {
      ManyAtLeast(vs[1..], p, min, s);
      assert |vs| * min == |vs[1..]| * min + min;
    }
  }

  lemma {:induction false} ManyFrame<T(!new)>(vs: seq<T>, p: (T, Cur) -> Cur, a: Cur, s: Cur)
    requires Framing(p)
    ensures PutMany(vs, p, Join(a, s)) == Join(PutMany(vs, p, a), s)
  {
    if vs != [] {
      ManyFrame(vs[1..], p, a, s);
    }
  }

  lemma ListSound<T>(min: nat, over: nat, f: Cur -> Read<T>, p: (T, Cur) -> Cur, fits: T -> bool, s: Cur)
    requires Sound(f, p, fits)
    ensures var r := ReadList(min, over, f, s); r.Got? ==> FitsList(r.v, fits) && s == PutList(r.v, p, r.s)
  {
    var c := ReadCount(min, over, s);
    if c.Got? {
      ManySound(c.v, f, p, fits, c.s);
    }
  }

  lemma ListComplete<T(!new)>(vs: seq<T>, min: nat, over: nat, f: Cur -> Read<T>, p: (T, Cur) -> Cur, fits: T -> bool, s: Cur)
    requires Complete(f, p, fits) && AtLeast(p, min) && FitsList(vs, fits) && over <= |s.rest|
    ensures ReadList(min, over, f, PutList(vs, p, s)) == Got(vs, s)
  {
    ManyComplete(vs, f, p, fits, s);
    ManyAtLeast(vs, p, min, s);
    ReadPutCount(|vs|, min, over, PutMany(vs, p, s));
  }

  lemma ListFrame<T(!new)>(vs: seq<T>, p: (T, Cur) -> Cur, a: Cur, s: Cur)
    requires Framing(p)
    ensures PutList(vs, p, Join(a, s)) == Join(PutList(vs, p, a), s)
  {
    ManyFrame(vs, p, a, s);
    Frames();
  }

  // ---------------------------------------------------------------- optional values

  /** Which error a bad presence byte is reported as. */
  datatype Flag = BoolFlag | DebugFlag | TypeMapFlag {
    function Error(b: u8): WireError {
      match this
      case BoolFlag => InvalidBool(b)
      case DebugFlag => InvalidDebugFlag(b)
      case TypeMapFlag => InvalidTypeMapFlag(b)
    }
  }

  /** A presence byte and the value. */
  function ReadOption<T>(flag: Flag, f: Cur -> Read<T>, s: Cur): (r: Read<Option<T>>) {
    var (b, s) :- ReadU8(s);
    if b == 0 then Got(None, s)
    else if b == 1 then
      var (v, s) :- f(s);
      Got(Some(v), s)
    else Fail(flag.Error(b))
  }

  function PutOption<T>(o: Option<T>, p: (T, Cur) -> Cur, s: Cur): Cur {
    if o.Some? then PutU8(1, p(o.value, s)) else PutU8(0, s)
  }

  ghost predicate FitsOption<T>(o: Option<T>, fits: T -> bool) {
    o.Some? ==> fits(o.value)
  }

  lemma OptionSound<T>(flag: Flag, f: Cur -> Read<T>, p: (T, Cur) -> Cur, fits: T -> bool, s: Cur)
    requires Sound(f, p, fits)
    ensures var r := ReadOption(flag, f, s); r.Got? ==> FitsOption(r.v, fits) && s == PutOption(r.v, p, r.s)
  {
  }

  lemma OptionComplete<T(!new)>(o: Option<T>, flag: Flag, f: Cur -> Read<T>, p: (T, Cur) -> Cur, fits: T -> bool, s: Cur)
    requires Complete(f, p, fits) && FitsOption(o, fits)
    ensures ReadOption(flag, f, PutOption(o, p, s)) == Got(o, s)
  {
    if o.Some? {
      ReadPutU8(1, p(o.value, s));
    } else {
      ReadPutU8(0, s);
    }
  }

  lemma OptionFrame<T(!new)>(o: Option<T>, p: (T, Cur) -> Cur, a: Cur, s: Cur)
    requires Framing(p)
    ensures PutOption(o, p, Join(a, s)) == Join(PutOption(o, p, a), s)
  {
    Frames();
  }

  // ---------------------------------------------------------------- lists without repeated keys

  /** Elements whose keys are neither in `seen` nor repeated. */
  function ReadUnique<T, K>(n: nat, f: Cur -> Read<T>, key: T -> K, seen: set<K>, s: Cur): (r: Read<seq<T>>)
    ensures r.Got? ==> r == ReadMany(n, f, s) && Distinct(key, r.v) && forall v <- r.v :: key(v) !in seen
    decreases n
  {
    if n == 0 then Got([], s)
    else
      var (v, s) :- f(s);
      if key(v) in seen then Fail(InvalidValueType(0))
      else
        var (vs, s) :- ReadUnique(n - 1, f, key, seen + {key(v)}, s);
        Got([v] + vs, s)
  }

  lemma UniqueStep<T, K>(n: nat, f: Cur -> Read<T>, key: T -> K, seen: set<K>, s: Cur)
    requires ReadUnique(n, f, key, seen, s).Got?
    ensures n == 0 ==> ReadUnique(n, f, key, seen, s).s == s
    ensures n > 0 ==> f(s).Got? && key(f(s).v) !in seen
    ensures n > 0 ==> var rest := ReadUnique(n - 1, f, key, seen + {key(f(s).v)}, f(s).s);
                      rest.Got? && ReadUnique(n, f, key, seen, s).s == rest.s
  {
  }

  lemma {:induction false} UniqueComplete<T, K>(n: nat, f: Cur -> Read<T>, key: T -> K, seen: set<K>, s: Cur)
    requires var r := ReadMany(n, f, s); r.Got? && Distinct(key, r.v) && forall v <- r.v :: key(v) !in seen
    ensures ReadUnique(n, f, key, seen, s) == ReadMany(n, f, s)
    decreases n
  {
    if n > 0 {
      var r := ReadMany(n, f, s);
      assert r.v[1..] == ReadMany(n - 1, f, f(s).s).v;
      assert r.v[0] in r.v;
      UniqueComplete(n - 1, f, key, seen + {key(r.v[0])}, f(s).s);
    }
  }
}
