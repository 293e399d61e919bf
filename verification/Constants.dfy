/** Constant values on the wire. */
module Constants {
  // Also the value-keyed map a decoded map constant becomes.

  import opened Bytes
  import opened Wire

  /** Floats are their 64-bit patterns. A map is its entries in iteration order. */
  datatype Value =
    | Null
    | Int(i: i64)
    | Float(bits: u64)
    | Bool(flag: bool)
    | Text(text: Str)
    | Blob(data: seq<u8>)
    | Array(items: seq<Value>)
    | Map(entries: seq<Entry>)
    | Callable(prototype: u32)

  datatype Entry = Entry(key: Value, value: Value)

  /** The constants without parts: tags 0 to 5. */
  function ReadLeaf(tag: u8, s: Cur): (r: Read<Value>)
    ensures r.Got? ==> tag < 6 && FitsLeaf(r.v) && PutU8(tag, s) == PutLeaf(r.v, r.s)
  {
    if tag == 0 then
      var (x, s) :- ReadU64(s);
      Got(Int(FromBits(x)), s)
    else if tag == 1 then
      var (x, s) :- ReadU8(s);
      if x > 1 then Fail(InvalidBool(x)) else Got(Bool(x == 1), s)
    else if tag == 2 then
      var (x, s) :- ReadString(s);
      Got(Text(x), s)
    else if tag == 3 then
      var (x, s) :- ReadU64(s);
      Got(Float(x), s)
    else if tag == 4 then Got(Null, s)
    else if tag == 5 then
      var (x, s) :- ReadBlob(s);
      Got(Blob(x), s)
    else Fail(InvalidConstantTag(tag))
  }

  function ReadValue(depth: nat, s: Cur): (r: Read<Value>)
    requires depth <= MAX_CONSTANT_DEPTH
    ensures r.Got? ==> FitsValue(depth, r.v) && s == PutValue(r.v, r.s)
    decreases MAX_CONSTANT_DEPTH - depth, 0
  {
    if depth >= MAX_CONSTANT_DEPTH then Fail(LengthTooLarge(depth))
    else
      var (tag, s) :- ReadU8(s);
      if tag == 6 then
        var (n, s) :- ReadCount(1, 0, s);
        var (vs, s) :- ReadValues(n, depth + 1, s);
        Got(Array(vs), s)
      else if tag == 7 then
        var (n, s) :- ReadCount(2, 0, s);
        var (es, s) :- ReadEntries(n, depth + 1, s);
        Got(Map(es), s)
      else ReadLeaf(tag, s)
  }

  function ReadValues(n: nat, depth: nat, s: Cur): (r: Read<seq<Value>>)
    requires depth <= MAX_CONSTANT_DEPTH
    ensures r.Got? ==> |r.v| == n && FitsValues(depth, r.v) && s == PutValues(r.v, r.s)
    decreases MAX_CONSTANT_DEPTH - depth, n
  {
    if n == 0 then Got([], s)
    else
      var (v, s) :- ReadValue(depth, s);
      var (vs, s) :- ReadValues(n - 1, depth, s);
      Got([v] + vs, s)
  }

  function ReadEntries(n: nat, depth: nat, s: Cur): (r: Read<seq<Entry>>)
    requires depth <= MAX_CONSTANT_DEPTH
    ensures r.Got? ==> |r.v| == n && FitsEntries(depth, r.v) && s == PutEntries(r.v, r.s)
    decreases MAX_CONSTANT_DEPTH - depth, n
  {
    if n == 0 then Got([], s)
    else
      var (k, s) :- ReadValue(depth, s);
      var (v, s) :- ReadValue(depth, s);
      var (es, s) :- ReadEntries(n - 1, depth, s);
      Got([Entry(k, v)] + es, s)
  }

  predicate FitsLeaf(v: Value) {
    match v
    case Text(x) => FitsString(x)
    case Blob(x) => FitsBlob(x)
    case _ => !v.Array? && !v.Map? && !v.Callable?
  }

  /** The limits a reader at nesting level `depth` puts on a value. */
  predicate FitsValue(depth: nat, v: Value)
    decreases v
  {
    && depth < MAX_CONSTANT_DEPTH
    && match v
       case Array(vs) => |vs| <= MAX_COUNT && FitsValues(depth + 1, vs)
       case Map(es) => |es| <= MAX_COUNT && FitsEntries(depth + 1, es)
       case _ => FitsLeaf(v)
  }

  predicate FitsValues(depth: nat, vs: seq<Value>)
    decreases vs
  {
    forall v <- vs :: FitsValue(depth, v)
  }

  predicate FitsEntries(depth: nat, es: seq<Entry>)
    decreases es
  {
    forall e <- es :: FitsEntry(depth, e)
  }

  predicate FitsEntry(depth: nat, e: Entry)
    decreases e
  {
    FitsValue(depth, e.key) && FitsValue(depth, e.value)
  }

  /** A callable has no constant tag; 8 is one no reader accepts. */
  function PutLeaf(v: Value, s: Cur): Cur {
    match v
    case Int(i) => PutU8(0, PutU64(ToBits(i), s))
    case Bool(flag) => PutU8(1, PutU8(if flag then 1 else 0, s))
    case Text(x) => PutU8(2, PutBlob(x, s))
    case Float(bits) => PutU8(3, PutU64(bits, s))
    case Null => PutU8(4, s)
    case Blob(x) => PutU8(5, PutBlob(x, s))
    case _ => PutU8(8, s)
  }

  function PutValue(v: Value, s: Cur): Cur
    decreases v
  {
    match v
    case Array(vs) => PutU8(6, PutCount(|vs|, PutValues(vs, s)))
    case Map(es) => PutU8(7, PutCount(|es|, PutEntries(es, s)))
    case _ => PutLeaf(v, s)
  }

  function PutValues(vs: seq<Value>, s: Cur): Cur
    decreases vs
  {
    if vs == [] then s else PutValue(vs[0], PutValues(vs[1..], s))
  }

  function PutEntries(es: seq<Entry>, s: Cur): Cur
    decreases es
  {
    if es == [] then s
    else
      assert es[0].key < es[0];
      PutValue(es[0].key, PutValue(es[0].value, PutEntries(es[1..], s)))
  }

  /** Encoded length in bytes. */
  function SizeOf(v: Value): (r: nat)
    ensures r >= 1
    decreases v
  {
    match v
    case Int(_) => 9
    case Float(_) => 9
    case Bool(_) => 2
    case Text(x) => 5 + |x|
    case Blob(x) => 5 + |x|
    case Array(vs) => 5 + SizeOfAll(vs)
    case Map(es) => 5 + SizeOfEntries(es)
    case _ => 1
  }

  function SizeOfAll(vs: seq<Value>): (r: nat)
    ensures r >= |vs|
    decreases vs
  {
    if vs == [] then 0 else SizeOf(vs[0]) + SizeOfAll(vs[1..])
  }

  function SizeOfEntries(es: seq<Entry>): (r: nat)
    ensures r >= 2 * |es|
    decreases es
  {
    if es == [] then 0
    else
      assert es[0].key < es[0];
      SizeOf(es[0].key) + SizeOf(es[0].value) + SizeOfEntries(es[1..])
  }

  /** Items the reader debits: every array element and every map entry. */
  function ItemsOf(v: Value): nat
    decreases v
  {
    match v
    case Array(vs) => |vs| + ItemsOfAll(vs)
    case Map(es) => |es| + ItemsOfEntries(es)
    case _ => 0
  }

  function ItemsOfAll(vs: seq<Value>): nat
    decreases vs
  {
    if vs == [] then 0 else ItemsOf(vs[0]) + ItemsOfAll(vs[1..])
  }

  function ItemsOfEntries(es: seq<Entry>): nat
    decreases es
  {
    if es == [] then 0
    else
      assert es[0].key < es[0];
      ItemsOf(es[0].key) + ItemsOf(es[0].value) + ItemsOfEntries(es[1..])
  }

  /** What a constant adds to a cursor. */
  lemma {:induction false} ValueLoad(v: Value, s: Cur)
    ensures |PutValue(v, s).rest| == SizeOf(v) + |s.rest|
    ensures PutValue(v, s).b == s.b.(items := s.b.items + ItemsOf(v))
    decreases v
  {
    match v {
      case Array(vs) => ValuesLoad(vs, s);
      case Map(es) => EntriesLoad(es, s);
      case _ =>
    }
  }

  lemma {:induction false} ValuesLoad(vs: seq<Value>, s: Cur)
    ensures |PutValues(vs, s).rest| == SizeOfAll(vs) + |s.rest|
    ensures PutValues(vs, s).b == s.b.(items := s.b.items + ItemsOfAll(vs))
    decreases vs
  {
    if vs != [] {
      ValueLoad(vs[0], PutValues(vs[1..], s));
      ValuesLoad(vs[1..], s);
    }
  }

  lemma {:induction false} EntriesLoad(es: seq<Entry>, s: Cur)
    ensures |PutEntries(es, s).rest| == SizeOfEntries(es) + |s.rest|
    ensures PutEntries(es, s).b == s.b.(items := s.b.items + ItemsOfEntries(es))
    decreases es
  {
    if es != [] {
      assert es[0].key < es[0];
      ValueLoad(es[0].key, PutValue(es[0].value, PutEntries(es[1..], s)));
      ValueLoad(es[0].value, PutEntries(es[1..], s));
      EntriesLoad(es[1..], s);
    }
  }

  lemma ReadPutLeaf(v: Value, s: Cur)
    requires FitsLeaf(v)
    ensures var r := ReadU8(PutLeaf(v, s)); r.Got? && r.v < 6 && ReadLeaf(r.v, r.s) == Got(v, s)
  {
    hide ReadU64;
    hide ReadString;
    hide ReadBlob;
    hide PutU64;
    hide PutBlob;
    Primitives();
    Strings();
  }

  /** Reading a constant inverts writing it, whatever follows. */
  lemma {:induction false} ReadPutValue(depth: nat, v: Value, s: Cur)
    requires FitsValue(depth, v)
    ensures ReadValue(depth, PutValue(v, s)) == Got(v, s)
    decreases v
  {
    hide PutU8;
    hide PutCount;
    hide ReadU8;
    hide ReadCount;
    match v {
      case Array(vs) =>
        ReadPutValues(depth + 1, vs, s);
        ValuesLoad(vs, s);
        ReadPutCount(|vs|, 1, 0, PutValues(vs, s));
        ReadPutU8(6, PutCount(|vs|, PutValues(vs, s)));
      case Map(es) =>
        ReadPutEntries(depth + 1, es, s);
        EntriesLoad(es, s);
        ReadPutCount(|es|, 2, 0, PutEntries(es, s));
        ReadPutU8(7, PutCount(|es|, PutEntries(es, s)));
      case _ =>
        ReadPutLeaf(v, s);
    }
  }

  lemma {:induction false} ReadPutValues(depth: nat, vs: seq<Value>, s: Cur)
    requires depth <= MAX_CONSTANT_DEPTH && FitsValues(depth, vs)
    ensures ReadValues(|vs|, depth, PutValues(vs, s)) == Got(vs, s)
    decreases vs
  {
    if vs != [] {
      ReadPutValue(depth, vs[0], PutValues(vs[1..], s));
      ReadPutValues(depth, vs[1..], s);
      assert [vs[0]] + vs[1..] == vs;
    }
  }

  lemma {:induction false} ReadPutEntries(depth: nat, es: seq<Entry>, s: Cur)
    requires depth <= MAX_CONSTANT_DEPTH && FitsEntries(depth, es)
    ensures ReadEntries(|es|, depth, PutEntries(es, s)) == Got(es, s)
    decreases es
  {
    if es != [] {
      assert es[0].key < es[0];
      assert FitsEntry(depth, es[0]);
      ReadPutValue(depth, es[0].key, PutValue(es[0].value, PutEntries(es[1..], s)));
      ReadPutValue(depth, es[0].value, PutEntries(es[1..], s));
      ReadPutEntries(depth, es[1..], s);
      assert [Entry(es[0].key, es[0].value)] + es[1..] == es;
    }
  }

  /** Writing a constant only prepends. */
  lemma {:induction false} ValueFrame(v: Value, a: Cur, s: Cur)
    ensures PutValue(v, Join(a, s)) == Join(PutValue(v, a), s)
    decreases v
  {
    hide PutU8, PutU64, PutBlob, PutCount;
    Frames();
    match v {
      case Array(vs) => ValuesFrame(vs, a, s);
      case Map(es) => EntriesFrame(es, a, s);
      case _ =>
    }
  }

  lemma {:induction false} ValuesFrame(vs: seq<Value>, a: Cur, s: Cur)
    ensures PutValues(vs, Join(a, s)) == Join(PutValues(vs, a), s)
    decreases vs
  {
    if vs != [] {
      ValuesFrame(vs[1..], a, s);
      ValueFrame(vs[0], PutValues(vs[1..], a), s);
    }
  }

  lemma {:induction false} EntriesFrame(es: seq<Entry>, a: Cur, s: Cur)
    ensures PutEntries(es, Join(a, s)) == Join(PutEntries(es, a), s)
    decreases es
  {
    if es != [] {
      assert es[0].key < es[0];
      EntriesFrame(es[1..], a, s);
      ValueFrame(es[0].value, PutEntries(es[1..], a), s);
      ValueFrame(es[0].key, PutValue(es[0].value, PutEntries(es[1..], a)), s);
    }
  }

  // ---------------------------------------------------------------- map constants

  /** `0.0` and `-0.0` are one key; every other pattern is itself. */
  function KeyBits(bits: u64): u64 {
    if bits == 0x8000_0000_0000_0000 then 0 else bits
  }

  /** Scalars, strings and bytes compare by value; freshly decoded arrays and maps are distinct heap objects. */
  predicate KeyEq(a: Value, b: Value) {
    match (a, b)
    case (Float(x), Float(y)) => KeyBits(x) == KeyBits(y)
    case (_, _) => a == b && !a.Array? && !a.Map?
  }

  /** `VmMap::insert`: the key first inserted stays, the value last inserted wins. */
  function MapInsert(es: seq<Entry>, e: Entry): seq<Entry> {
    if es == [] then [e]
    else if KeyEq(es[0].key, e.key) then [Entry(es[0].key, e.value)] + es[1..]
    else [es[0]] + MapInsert(es[1..], e)
  }

  function MapOf(es: seq<Entry>): seq<Entry> {
    if es == [] then [] else MapInsert(MapOf(es[..|es| - 1]), es[|es| - 1])
  }

  /** No two keys of a map compare equal. */
  ghost predicate DistinctKeys(es: seq<Entry>) {
    forall i, j | 0 <= i < j < |es| :: !KeyEq(es[i].key, es[j].key)
  }

  /** The value in memory after decoding `v`, innermost maps first. */
  function CanonValue(v: Value): Value
    decreases v
  {
    match v
    case Array(vs) => Array(CanonValues(vs))
    case Map(es) => Map(MapOf(CanonEntries(es)))
    case _ => v
  }

  function CanonValues(vs: seq<Value>): (r: seq<Value>)
    ensures |r| == |vs| && forall i | 0 <= i < |vs| :: r[i] == CanonValue(vs[i])
    decreases vs
  {
    if vs == [] then [] else [CanonValue(vs[0])] + CanonValues(vs[1..])
  }

  function CanonEntry(e: Entry): Entry
    decreases e
  {
    Entry(CanonValue(e.key), CanonValue(e.value))
  }

  function CanonEntries(es: seq<Entry>): (r: seq<Entry>)
    ensures |r| == |es| && forall i | 0 <= i < |es| :: r[i] == CanonEntry(es[i])
    decreases es
  {
    if es == [] then [] else [CanonEntry(es[0])] + CanonEntries(es[1..])
  }

  lemma {:induction false} MapInsertShape(es: seq<Entry>, e: Entry)
    ensures |MapInsert(es, e)| <= |es| + 1
    ensures forall x <- MapInsert(es, e) :: (x.key == e.key || exists y <- es :: y.key == x.key) && (x.value == e.value || exists y <- es :: y.value == x.value)
    ensures DistinctKeys(es) ==> DistinctKeys(MapInsert(es, e))
    ensures SizeOfEntries(MapInsert(es, e)) <= SizeOfEntries(es) + SizeOf(e.key) + SizeOf(e.value)
    ensures ItemsOfEntries(MapInsert(es, e)) <= ItemsOfEntries(es) + ItemsOf(e.key) + ItemsOf(e.value)
  {
    if es == [] || KeyEq(es[0].key, e.key) {
    } else {
      MapInsertShape(es[1..], e);
    }
  }

  lemma MapOfShape(es: seq<Entry>)
    ensures DistinctKeys(MapOf(es)) && |MapOf(es)| <= |es|
    ensures forall x <- MapOf(es) :: (exists y <- es :: y.key == x.key) && exists y <- es :: y.value == x.value
    ensures SizeOfEntries(MapOf(es)) <= SizeOfEntries(es) && ItemsOfEntries(MapOf(es)) <= ItemsOfEntries(es)
  {
    hide MapOf, DistinctKeys, SizeOfEntries, ItemsOfEntries;
    MapOfSizes(es);
    MapOfMembers(es);
  }

  lemma {:induction false} MapOfSizes(es: seq<Entry>)
    ensures DistinctKeys(MapOf(es)) && |MapOf(es)| <= |es|
    ensures SizeOfEntries(MapOf(es)) <= SizeOfEntries(es) && ItemsOfEntries(MapOf(es)) <= ItemsOfEntries(es)
  {
    hide MapInsert;
    if es != [] {
      var m, e := es[..|es| - 1], es[|es| - 1];
      MapOfSizes(m);
      MapInsertShape(MapOf(m), e);
      EntriesConcat(m, [e]);
      assert m + [e] == es;
    }
  }

  lemma {:induction false} MapOfMembers(es: seq<Entry>)
    ensures forall x <- MapOf(es) :: (exists y <- es :: y.key == x.key) && exists y <- es :: y.value == x.value
  {
    hide MapInsert, SizeOfEntries, ItemsOfEntries, DistinctKeys;
    if es != [] {
      var m, e := es[..|es| - 1], es[|es| - 1];
      MapOfMembers(m);
      MapInsertShape(MapOf(m), e);
      assert e in es && forall y <- m :: y in es;
    }
  }

  lemma {:induction false} EntriesConcat(a: seq<Entry>, b: seq<Entry>)
    ensures SizeOfEntries(a + b) == SizeOfEntries(a) + SizeOfEntries(b)
    ensures ItemsOfEntries(a + b) == ItemsOfEntries(a) + ItemsOfEntries(b)
  {
    if a == [] {
      assert a + b == b;
    } else {
      assert (a + b)[1..] == a[1..] + b;
      EntriesConcat(a[1..], b);
    }
  }

  lemma {:induction false} MapInsertFresh(es: seq<Entry>, e: Entry)
    requires forall x <- es :: !KeyEq(x.key, e.key)
    ensures MapInsert(es, e) == es + [e]
  {
    if es != [] {
      assert es[0] in es;
      MapInsertFresh(es[1..], e);
      assert [es[0]] + es[1..] == es;
    }
  }

  /** A list of distinct keys is already a map. */
  lemma {:induction false} MapOfDistinct(es: seq<Entry>)
    requires DistinctKeys(es)
    ensures MapOf(es) == es
  {
    if es != [] {
      var m, e := es[..|es| - 1], es[|es| - 1];
      MapOfDistinct(m);
      MapInsertFresh(m, e);
      assert m + [e] == es;
    }
  }

  /** Decoding into a map keeps the limits and never makes a constant larger. */
  lemma {:induction false} CanonShrinks(v: Value)
    ensures SizeOf(CanonValue(v)) <= SizeOf(v) && ItemsOf(CanonValue(v)) <= ItemsOf(v)
    decreases v
  {
    match v {
      case Array(vs) => CanonAllShrinks(vs);
      case Map(es) =>
        CanonEntriesShrinks(es);
        MapOfShape(CanonEntries(es));
      case _ =>
    }
  }

  lemma {:induction false} CanonAllShrinks(vs: seq<Value>)
    ensures SizeOfAll(CanonValues(vs)) <= SizeOfAll(vs) && ItemsOfAll(CanonValues(vs)) <= ItemsOfAll(vs)
    decreases vs
  {
    if vs != [] {
      CanonShrinks(vs[0]);
      CanonAllShrinks(vs[1..]);
      assert CanonValues(vs)[1..] == CanonValues(vs[1..]);
    }
  }

  lemma {:induction false} CanonEntriesShrinks(es: seq<Entry>)
    ensures SizeOfEntries(CanonEntries(es)) <= SizeOfEntries(es) && ItemsOfEntries(CanonEntries(es)) <= ItemsOfEntries(es)
    decreases es
  {
    if es != [] {
      assert es[0].key < es[0];
      CanonShrinks(es[0].key);
      CanonShrinks(es[0].value);
      CanonEntriesShrinks(es[1..]);
      assert CanonEntries(es)[1..] == CanonEntries(es[1..]);
    }
  }

  lemma MapOfFits(depth: nat, es: seq<Entry>)
    requires FitsEntries(depth, es)
    ensures FitsEntries(depth, MapOf(es)) && |MapOf(es)| <= |es|
  {
    MapOfShape(es);
    forall x | x in MapOf(es) ensures FitsEntry(depth, x) {
      var y :| y in es && y.key == x.key;
      var z :| z in es && z.value == x.value;
      assert FitsEntry(depth, y) && FitsEntry(depth, z);
    }
  }

  lemma {:induction false} CanonFits(depth: nat, v: Value)
    requires FitsValue(depth, v)
    ensures FitsValue(depth, CanonValue(v))
    decreases v
  {
    match v {
      case Array(vs) =>
        forall x | x in vs ensures FitsValue(depth + 1, CanonValue(x)) { CanonFits(depth + 1, x); }
      case Map(es) =>
        forall e | e in es ensures FitsEntry(depth + 1, CanonEntry(e)) {
          assert FitsEntry(depth + 1, e);
          CanonFits(depth + 1, e.key);
          CanonFits(depth + 1, e.value);
        }
        MapOfFits(depth + 1, CanonEntries(es));
      case _ =>
    }
  }

  lemma CanonFixed(es: seq<Entry>)
    requires DistinctKeys(es) && forall e <- es :: CanonEntry(e) == e
    ensures CanonValue(Map(es)) == Map(es)
  {
    assert CanonEntries(es) == es;
    MapOfDistinct(es);
  }

  /** A decoded constant is its own map form. */
  lemma {:induction false} CanonIdempotent(v: Value)
    ensures CanonValue(CanonValue(v)) == CanonValue(v)
    decreases v
  {
    match v {
      case Array(vs) =>
        forall x | x in vs ensures CanonValue(CanonValue(x)) == CanonValue(x) { CanonIdempotent(x); }
        assert CanonValues(CanonValues(vs)) == CanonValues(vs);
      case Map(es) =>
        forall e | e in es ensures CanonEntry(CanonEntry(e)) == CanonEntry(e) {
          CanonIdempotent(e.key);
          CanonIdempotent(e.value);
        }
        CanonMapFixed(CanonEntries(es));
      case _ =>
    }
  }

  lemma CanonMapFixed(es: seq<Entry>)
    requires forall e <- es :: CanonEntry(e) == e
    ensures CanonValue(Map(MapOf(es))) == Map(MapOf(es))
  {
    MapOfShape(es);
    forall x | x in MapOf(es) ensures CanonEntry(x) == x {
      var y :| y in es && y.key == x.key;
      var z :| z in es && z.value == x.value;
      assert CanonEntry(y) == y && CanonEntry(z) == z;
    }
    CanonFixed(MapOf(es));
  }
}
