/** Guest type schemas on the wire. */
module Schemas {
  import opened Bytes
  import opened Seqs
  import opened Wire
  import opened Assoc
  import opened ResourceKeys

  datatype Scalar = Unknown | Null | Int | Float | Number | Bool | String | Bytes

  function ScalarTag(k: Scalar): u8 {
    match k
    case Unknown => 0
    case Null => 1
    case Int => 2
    case Float => 3
    case Number => 4
    case Bool => 5
    case String => 6
    case Bytes => 7
  }

  function ScalarOf(tag: u8): (k: Scalar)
    requires tag < 8
    ensures ScalarTag(k) == tag
  {
    match tag
    case 0 => Unknown
    case 1 => Null
    case 2 => Int
    case 3 => Float
    case 4 => Number
    case 5 => Bool
    case 6 => String
    case _ => Bytes
  }

  datatype TypeSchema =
    | Basic(kind: Scalar)
    | GenericParam(name: Str)
    | Resource(key: Str)
    | Array(item: TypeSchema)
    | Map(item: TypeSchema)
    | Optional(item: TypeSchema)
    | Named(name: Str, args: seq<TypeSchema>)
    | Tuple(items: seq<TypeSchema>)
    | TupleRest(items: seq<TypeSchema>, last: TypeSchema)
    | Callable(items: seq<TypeSchema>, last: TypeSchema)
    | Object(fields: seq<Field>)

  datatype Field = Field(name: Str, ty: TypeSchema)

  function FieldName(f: Field): Str { f.name }

  // ---------------------------------------------------------------- reading

  /** The schemas without parts: the scalars, generic parameters and resources. */
  function ReadAtom(tag: u8, s: Cur): (r: Read<TypeSchema>)
    ensures r.Got? ==> FitsAtom(r.v) && Charge(1, PutU8(tag, s)) == PutAtom(r.v, r.s)
  {
    if tag < 8 then Got(Basic(ScalarOf(tag)), s)
    else if tag == 8 then
      var (x, s) :- ReadString(s);
      Got(GenericParam(x), s)
    else if tag == 17 then
      var (x, s) :- ReadString(s);
      if KeyOk(x) then Got(Resource(x), s) else Fail(InvalidResourceKey)
    else Fail(InvalidValueType(tag))
  }

  function ReadSchema(depth: nat, s: Cur): (r: Read<TypeSchema>)
    requires depth <= MAX_SCHEMA_DEPTH
    ensures r.Got? ==> FitsSchema(depth, r.v) && s == PutSchema(r.v, r.s)
    decreases MAX_SCHEMA_DEPTH - depth, 0, 1
  {
    if depth >= MAX_SCHEMA_DEPTH then Fail(LengthTooLarge(depth))
    else
      var (_, s) :- Debit(1, s);
      var (tag, s) :- ReadU8(s);
      if tag in {9, 11, 12, 14, 15} then ReadComposite(tag, depth + 1, s)
      else if tag in {10, 13, 16} then
        var (t, s) :- ReadSchema(depth + 1, s);
        Got(if tag == 10 then Array(t) else if tag == 13 then Map(t) else Optional(t), s)
      else ReadAtom(tag, s)
  }

  /** The schemas with a counted list of parts. */
  function ReadComposite(tag: u8, depth: nat, s: Cur): (r: Read<TypeSchema>)
    requires 1 <= depth <= MAX_SCHEMA_DEPTH && tag in {9, 11, 12, 14, 15}
    ensures r.Got? ==> FitsSchema(depth - 1, r.v) && Charge(1, PutU8(tag, s)) == PutSchema(r.v, r.s)
    decreases MAX_SCHEMA_DEPTH - depth + 1, 0, 0
  {
    if tag == 9 then
      var (x, s) :- ReadString(s);
      var (ts, s) :- ReadParts(0, depth, s);
      Got(Named(x, ts), s)
    else if tag == 11 then
      var (ts, s) :- ReadParts(0, depth, s);
      Got(Tuple(ts), s)
    else if tag == 14 then
      var (n, s) :- ReadCount(5, 0, s);
      var (fs, s) :- ReadFields(n, depth, s);
      Got(Object(fs), s)
    else
      var (ts, s) :- ReadParts(1, depth, s);
      var (t, s) :- ReadSchema(depth, s);
      Got(if tag == 12 then TupleRest(ts, t) else Callable(ts, t), s)
  }

  /** A counted list of schemas with `over` bytes known to follow. */
  function ReadParts(over: nat, depth: nat, s: Cur): (r: Read<seq<TypeSchema>>)
    requires depth <= MAX_SCHEMA_DEPTH
    ensures r.Got? ==> |r.v| <= MAX_COUNT && FitsSchemas(depth, r.v) && s == PutParts(r.v, r.s)
    decreases MAX_SCHEMA_DEPTH - depth, MAX_COUNT, 3
  {
    var (n, s) :- ReadCount(1, over, s);
    ReadSchemas(n, depth, s)
  }

  function ReadSchemas(n: nat, depth: nat, s: Cur): (r: Read<seq<TypeSchema>>)
    requires depth <= MAX_SCHEMA_DEPTH
    ensures r.Got? ==> |r.v| == n && FitsSchemas(depth, r.v) && s == PutSchemas(r.v, r.s)
    decreases MAX_SCHEMA_DEPTH - depth, n, 2
  {
    if n == 0 then Got([], s)
    else
      var (t, s) :- ReadSchema(depth, s);
      var (ts, s) :- ReadSchemas(n - 1, depth, s);
      Got([t] + ts, s)
  }

  function ReadFields(n: nat, depth: nat, s: Cur): (r: Read<seq<Field>>)
    requires depth <= MAX_SCHEMA_DEPTH
    ensures r.Got? ==> |r.v| == n && FitsFields(depth, r.v) && s == PutFields(r.v, r.s)
    decreases MAX_SCHEMA_DEPTH - depth, n, 2
  {
    if n == 0 then Got([], s)
    else
      var (x, s) :- ReadString(s);
      var (t, s) :- ReadSchema(depth, s);
      var (fs, s) :- ReadFields(n - 1, depth, s);
      Got([Field(x, t)] + fs, s)
  }

  // ---------------------------------------------------------------- limits

  predicate FitsAtom(t: TypeSchema) {
    match t
    case GenericParam(x) => FitsString(x)
    case Resource(x) => FitsString(x) && KeyOk(x)
    case _ => t.Basic?
  }

  /** The limits a reader at nesting level `depth` puts on a schema. */
  predicate FitsSchema(depth: nat, t: TypeSchema)
    decreases t
  {
    && depth < MAX_SCHEMA_DEPTH
    && match t
       case Named(x, ts) => FitsString(x) && |ts| <= MAX_COUNT && FitsSchemas(depth + 1, ts)
       case Array(u) => FitsSchema(depth + 1, u)
       case Map(u) => FitsSchema(depth + 1, u)
       case Optional(u) => FitsSchema(depth + 1, u)
       case Tuple(ts) => |ts| <= MAX_COUNT && FitsSchemas(depth + 1, ts)
       case TupleRest(ts, u) => |ts| <= MAX_COUNT && FitsSchemas(depth + 1, ts) && FitsSchema(depth + 1, u)
       case Callable(ts, u) => |ts| <= MAX_COUNT && FitsSchemas(depth + 1, ts) && FitsSchema(depth + 1, u)
       case Object(fs) => |fs| <= MAX_COUNT && FitsFields(depth + 1, fs)
       case _ => FitsAtom(t)
  }

  predicate FitsSchemas(depth: nat, ts: seq<TypeSchema>)
    decreases ts
  {
    forall t <- ts :: FitsSchema(depth, t)
  }

  predicate FitsFields(depth: nat, fs: seq<Field>)
    decreases fs
  {
    forall f <- fs :: FitsField(depth, f)
  }

  predicate FitsField(depth: nat, f: Field)
    decreases f
  {
    FitsString(f.name) && FitsSchema(depth, f.ty)
  }

  // ---------------------------------------------------------------- writing

  function PutAtom(t: TypeSchema, s: Cur): Cur {
    match t
    case Basic(k) => Charge(1, PutU8(ScalarTag(k), s))
    case GenericParam(x) => Charge(1, PutU8(8, PutBlob(x, s)))
    case Resource(x) => Charge(1, PutU8(17, PutBlob(x, s)))
    case _ => s
  }

  function PutSchema(t: TypeSchema, s: Cur): Cur
    decreases t
  {
    match t
    case Named(x, ts) => Charge(1, PutU8(9, PutBlob(x, PutParts(ts, s))))
    case Array(u) => Charge(1, PutU8(10, PutSchema(u, s)))
    case Tuple(ts) => Charge(1, PutU8(11, PutParts(ts, s)))
    case TupleRest(ts, u) => Charge(1, PutU8(12, PutParts(ts, PutSchema(u, s))))
    case Map(u) => Charge(1, PutU8(13, PutSchema(u, s)))
    case Object(fs) => Charge(1, PutU8(14, PutCount(|fs|, PutFields(fs, s))))
    case Callable(ts, u) => Charge(1, PutU8(15, PutParts(ts, PutSchema(u, s))))
    case Optional(u) => Charge(1, PutU8(16, PutSchema(u, s)))
    case _ => PutAtom(t, s)
  }

  function PutParts(ts: seq<TypeSchema>, s: Cur): Cur
    decreases ts, 1
  {
    PutCount(|ts|, PutSchemas(ts, s))
  }

  function PutSchemas(ts: seq<TypeSchema>, s: Cur): Cur
    decreases ts, 0
  {
    if ts == [] then s else PutSchema(ts[0], PutSchemas(ts[1..], s))
  }

  function PutFields(fs: seq<Field>, s: Cur): Cur
    decreases fs
  {
    if fs == [] then s else PutField(fs[0], PutFields(fs[1..], s))
  }

  function PutField(f: Field, s: Cur): Cur
    decreases f
  {
    PutBlob(f.name, PutSchema(f.ty, s))
  }

  /** Encoded length in bytes. */
  function SizeOf(t: TypeSchema): (r: nat)
    ensures r >= 1
    decreases t
  {
    match t
    case Basic(_) => 1
    case GenericParam(x) => 5 + |x|
    case Resource(x) => 5 + |x|
    case Named(x, ts) => 9 + |x| + SizeOfAll(ts)
    case Array(u) => 1 + SizeOf(u)
    case Map(u) => 1 + SizeOf(u)
    case Optional(u) => 1 + SizeOf(u)
    case Tuple(ts) => 5 + SizeOfAll(ts)
    case TupleRest(ts, u) => 5 + SizeOfAll(ts) + SizeOf(u)
    case Callable(ts, u) => 5 + SizeOfAll(ts) + SizeOf(u)
    case Object(fs) => 5 + SizeOfFields(fs)
  }

  function SizeOfAll(ts: seq<TypeSchema>): (r: nat)
    ensures r >= |ts|
    decreases ts
  {
    if ts == [] then 0 else SizeOf(ts[0]) + SizeOfAll(ts[1..])
  }

  function SizeOfFields(fs: seq<Field>): (r: nat)
    ensures r >= 5 * |fs|
    decreases fs
  {
    if fs == [] then 0 else SizeOfField(fs[0]) + SizeOfFields(fs[1..])
  }

  function SizeOfField(f: Field): (r: nat)
    ensures r >= 5
    decreases f
  {
    4 + |f.name| + SizeOf(f.ty)
  }

  /** Items the reader debits: one for every node and one for every listed part. */
  function ItemsOf(t: TypeSchema): nat
    decreases t
  {
    match t
    case Named(_, ts) => 1 + |ts| + ItemsOfAll(ts)
    case Array(u) => 1 + ItemsOf(u)
    case Map(u) => 1 + ItemsOf(u)
    case Optional(u) => 1 + ItemsOf(u)
    case Tuple(ts) => 1 + |ts| + ItemsOfAll(ts)
    case TupleRest(ts, u) => 1 + |ts| + ItemsOfAll(ts) + ItemsOf(u)
    case Callable(ts, u) => 1 + |ts| + ItemsOfAll(ts) + ItemsOf(u)
    case Object(fs) => 1 + |fs| + ItemsOfFields(fs)
    case _ => 1
  }

  function ItemsOfAll(ts: seq<TypeSchema>): nat
    decreases ts
  {
    if ts == [] then 0 else ItemsOf(ts[0]) + ItemsOfAll(ts[1..])
  }

  function ItemsOfFields(fs: seq<Field>): nat
    decreases fs
  {
    if fs == [] then 0 else ItemsOfField(fs[0]) + ItemsOfFields(fs[1..])
  }

  function ItemsOfField(f: Field): nat
    decreases f
  {
    ItemsOf(f.ty)
  }

  /** What a schema adds to a cursor. */
  lemma {:induction false} SchemaLoad(t: TypeSchema, s: Cur)
    ensures |PutSchema(t, s).rest| == SizeOf(t) + |s.rest|
    ensures PutSchema(t, s).b == s.b.(items := s.b.items + ItemsOf(t))
    decreases t
  {
    match t {
      case Named(_, ts) => SchemasLoad(ts, s);
      case Array(u) => SchemaLoad(u, s);
      case Map(u) => SchemaLoad(u, s);
      case Optional(u) => SchemaLoad(u, s);
      case Tuple(ts) => SchemasLoad(ts, s);
      case TupleRest(ts, u) =>
        SchemaLoad(u, s);
        SchemasLoad(ts, PutSchema(u, s));
      case Callable(ts, u) =>
        SchemaLoad(u, s);
        SchemasLoad(ts, PutSchema(u, s));
      case Object(fs) => FieldsLoad(fs, s);
      case _ =>
    }
  }

  lemma {:induction false} SchemasLoad(ts: seq<TypeSchema>, s: Cur)
    ensures |PutSchemas(ts, s).rest| == SizeOfAll(ts) + |s.rest|
    ensures PutSchemas(ts, s).b == s.b.(items := s.b.items + ItemsOfAll(ts))
    decreases ts
  {
    if ts != [] {
      SchemaLoad(ts[0], PutSchemas(ts[1..], s));
      SchemasLoad(ts[1..], s);
    }
  }

  lemma {:induction false} FieldsLoad(fs: seq<Field>, s: Cur)
    ensures |PutFields(fs, s).rest| == SizeOfFields(fs) + |s.rest|
    ensures PutFields(fs, s).b == s.b.(items := s.b.items + ItemsOfFields(fs))
    decreases fs
  {
    if fs != [] {
      assert fs[0].ty < fs[0];
      SchemaLoad(fs[0].ty, PutFields(fs[1..], s));
      FieldsLoad(fs[1..], s);
    }
  }

  // ---------------------------------------------------------------- round trip

  /** The header every schema starts with. */
  lemma ReadPutHeader(tag: u8, s: Cur)
    ensures Debit(1, Charge(1, PutU8(tag, s))) == Got((), PutU8(tag, s)) && ReadU8(PutU8(tag, s)) == Got(tag, s)
  {
    ReadPutU8(tag, s);
  }

  lemma ReadPutAtom(depth: nat, t: TypeSchema, s: Cur)
    requires FitsAtom(t) && depth < MAX_SCHEMA_DEPTH
    ensures ReadSchema(depth, PutAtom(t, s)) == Got(t, s)
  {
    hide PutU8, PutBlob, ReadU8, ReadString, Charge, Debit;
    match t {
      case Basic(k) => ReadPutHeader(ScalarTag(k), s);
      case GenericParam(x) =>
        ReadPutHeader(8, PutBlob(x, s));
        ReadPutString(x, s);
      case Resource(x) =>
        ReadPutHeader(17, PutBlob(x, s));
        ReadPutString(x, s);
    }
  }

  /** Reading a schema inverts writing it, whatever follows. */
  lemma {:induction false} ReadPutSchema(depth: nat, t: TypeSchema, s: Cur)
    requires FitsSchema(depth, t)
    ensures ReadSchema(depth, PutSchema(t, s)) == Got(t, s)
    decreases t, 1
  {
    hide PutU8, ReadU8, Charge, Debit;
    match t {
      case Array(u) =>
        ReadPutHeader(10, PutSchema(u, s));
        ReadPutSchema(depth + 1, u, s);
      case Map(u) =>
        ReadPutHeader(13, PutSchema(u, s));
        ReadPutSchema(depth + 1, u, s);
      case Optional(u) =>
        ReadPutHeader(16, PutSchema(u, s));
        ReadPutSchema(depth + 1, u, s);
      case Basic(_) => ReadPutAtom(depth, t, s);
      case GenericParam(_) => ReadPutAtom(depth, t, s);
      case Resource(_) => ReadPutAtom(depth, t, s);
      case _ => ReadPutComposite(depth, t, s);
    }
  }

  lemma {:induction false} ReadPutComposite(depth: nat, t: TypeSchema, s: Cur)
    requires FitsSchema(depth, t) && (t.Named? || t.Tuple? || t.TupleRest? || t.Callable? || t.Object?)
    ensures ReadSchema(depth, PutSchema(t, s)) == Got(t, s)
    decreases t, 0
  {
    hide PutU8, PutBlob, ReadU8, ReadString, Charge, Debit, PutCount, ReadCount, PutParts, ReadParts;
    match t {
      case Named(x, ts) =>
        ReadPutHeader(9, PutBlob(x, PutParts(ts, s)));
        ReadPutString(x, PutParts(ts, s));
        ReadPutParts(depth + 1, 0, ts, s);
      case Tuple(ts) =>
        ReadPutHeader(11, PutParts(ts, s));
        ReadPutParts(depth + 1, 0, ts, s);
      case TupleRest(ts, u) =>
        SchemaLoad(u, s);
        ReadPutHeader(12, PutParts(ts, PutSchema(u, s)));
        ReadPutParts(depth + 1, 1, ts, PutSchema(u, s));
        ReadPutSchema(depth + 1, u, s);
      case Callable(ts, u) =>
        SchemaLoad(u, s);
        ReadPutHeader(15, PutParts(ts, PutSchema(u, s)));
        ReadPutParts(depth + 1, 1, ts, PutSchema(u, s));
        ReadPutSchema(depth + 1, u, s);
      case Object(fs) =>
        ReadPutHeader(14, PutCount(|fs|, PutFields(fs, s)));
        FieldsLoad(fs, s);
        ReadPutCount(|fs|, 5, 0, PutFields(fs, s));
        ReadPutFields(depth + 1, fs, s);
    }
  }

  lemma {:induction false} ReadPutParts(depth: nat, over: nat, ts: seq<TypeSchema>, s: Cur)
    requires depth <= MAX_SCHEMA_DEPTH && FitsSchemas(depth, ts) && |ts| <= MAX_COUNT && over <= |s.rest|
    ensures ReadParts(over, depth, PutParts(ts, s)) == Got(ts, s)
    decreases ts, 1
  {
    SchemasLoad(ts, s);
    ReadPutCount(|ts|, 1, over, PutSchemas(ts, s));
    ReadPutSchemas(depth, ts, s);
  }

  lemma {:induction false} ReadPutSchemas(depth: nat, ts: seq<TypeSchema>, s: Cur)
    requires depth <= MAX_SCHEMA_DEPTH && FitsSchemas(depth, ts)
    ensures ReadSchemas(|ts|, depth, PutSchemas(ts, s)) == Got(ts, s)
    decreases ts, 0
  {
    if ts != [] {
      ReadPutSchema(depth, ts[0], PutSchemas(ts[1..], s));
      ReadPutSchemas(depth, ts[1..], s);
      assert [ts[0]] + ts[1..] == ts;
    }
  }

  lemma {:induction false} ReadPutFields(depth: nat, fs: seq<Field>, s: Cur)
    requires depth <= MAX_SCHEMA_DEPTH && FitsFields(depth, fs)
    ensures ReadFields(|fs|, depth, PutFields(fs, s)) == Got(fs, s)
    decreases fs
  {
    hide PutBlob, ReadString;
    if fs != [] {
      assert fs[0].ty < fs[0] && FitsField(depth, fs[0]);
      ReadPutString(fs[0].name, PutSchema(fs[0].ty, PutFields(fs[1..], s)));
      ReadPutSchema(depth, fs[0].ty, PutFields(fs[1..], s));
      ReadPutFields(depth, fs[1..], s);
      assert [Field(fs[0].name, fs[0].ty)] + fs[1..] == fs;
    }
  }

  /** Writing a schema only prepends. */
  lemma {:induction false} SchemaFrame(t: TypeSchema, a: Cur, s: Cur)
    ensures PutSchema(t, Join(a, s)) == Join(PutSchema(t, a), s)
    decreases t
  {
    hide PutU8, PutBlob, PutCount, Charge;
    Frames();
    match t {
      case Named(_, ts) => SchemasFrame(ts, a, s);
      case Array(u) => SchemaFrame(u, a, s);
      case Map(u) => SchemaFrame(u, a, s);
      case Optional(u) => SchemaFrame(u, a, s);
      case Tuple(ts) => SchemasFrame(ts, a, s);
      case TupleRest(ts, u) =>
        SchemaFrame(u, a, s);
        SchemasFrame(ts, PutSchema(u, a), s);
      case Callable(ts, u) =>
        SchemaFrame(u, a, s);
        SchemasFrame(ts, PutSchema(u, a), s);
      case Object(fs) => FieldsFrame(fs, a, s);
      case _ =>
    }
  }

  lemma {:induction false} SchemasFrame(ts: seq<TypeSchema>, a: Cur, s: Cur)
    ensures PutSchemas(ts, Join(a, s)) == Join(PutSchemas(ts, a), s)
    decreases ts
  {
    if ts != [] {
      SchemasFrame(ts[1..], a, s);
      SchemaFrame(ts[0], PutSchemas(ts[1..], a), s);
    }
  }

  lemma {:induction false} FieldsFrame(fs: seq<Field>, a: Cur, s: Cur)
    ensures PutFields(fs, Join(a, s)) == Join(PutFields(fs, a), s)
    decreases fs
  {
    hide PutBlob;
    if fs != [] {
      assert fs[0].ty < fs[0];
      Frames();
      FieldsFrame(fs[1..], a, s);
      SchemaFrame(fs[0].ty, PutFields(fs[1..], a), s);
    }
  }

  // ---------------------------------------------------------------- object fields as a map

  /** The schema in memory after decoding `t`: every object is a map from field names. */
  function CanonSchema(t: TypeSchema): TypeSchema
    decreases t
  {
    match t
    case Named(x, ts) => Named(x, CanonSchemas(ts))
    case Array(u) => Array(CanonSchema(u))
    case Map(u) => Map(CanonSchema(u))
    case Optional(u) => Optional(CanonSchema(u))
    case Tuple(ts) => Tuple(CanonSchemas(ts))
    case TupleRest(ts, u) => TupleRest(CanonSchemas(ts), CanonSchema(u))
    case Callable(ts, u) => Callable(CanonSchemas(ts), CanonSchema(u))
    case Object(fs) => Object(FromList(FieldName, Less, CanonFields(fs)))
    case _ => t
  }

  function CanonSchemas(ts: seq<TypeSchema>): (r: seq<TypeSchema>)
    ensures |r| == |ts| && forall i | 0 <= i < |ts| :: r[i] == CanonSchema(ts[i])
    decreases ts
  {
    if ts == [] then [] else [CanonSchema(ts[0])] + CanonSchemas(ts[1..])
  }

  function CanonField(f: Field): Field
    decreases f
  {
    Field(f.name, CanonSchema(f.ty))
  }

  function CanonFields(fs: seq<Field>): (r: seq<Field>)
    ensures |r| == |fs| && forall i | 0 <= i < |fs| :: r[i] == CanonField(fs[i])
    decreases fs
  {
    if fs == [] then [] else [CanonField(fs[0])] + CanonFields(fs[1..])
  }

  lemma {:induction false} FieldTotals(fs: seq<Field>)
    ensures SizeOfFields(fs) == Sum(SizeOfField, fs) && ItemsOfFields(fs) == Sum(ItemsOfField, fs)
  {
    if fs != [] { FieldTotals(fs[1..]); }
  }

  /** Building the map of an object never makes a schema larger. */
  lemma {:induction false} CanonShrinks(t: TypeSchema)
    ensures SizeOf(CanonSchema(t)) <= SizeOf(t) && ItemsOf(CanonSchema(t)) <= ItemsOf(t)
    decreases t
  {
    hide FromList;
    match t {
      case Named(_, ts) => CanonAllShrinks(ts);
      case Array(u) => CanonShrinks(u);
      case Map(u) => CanonShrinks(u);
      case Optional(u) => CanonShrinks(u);
      case Tuple(ts) => CanonAllShrinks(ts);
      case TupleRest(ts, u) =>
        CanonAllShrinks(ts);
        CanonShrinks(u);
      case Callable(ts, u) =>
        CanonAllShrinks(ts);
        CanonShrinks(u);
      case Object(fs) =>
        CanonFieldsShrinks(fs);
        MapShrinks(CanonFields(fs));
      case _ =>
    }
  }

  lemma MapShrinks(fs: seq<Field>)
    ensures var m := FromList(FieldName, Less, fs);
            |m| <= |fs| && SizeOfFields(m) <= SizeOfFields(fs) && ItemsOfFields(m) <= ItemsOfFields(fs)
  {
    hide SizeOfFields, ItemsOfFields, FromList, Less;
    FieldTotals(fs);
    FieldTotals(FromList(FieldName, Less, fs));
    StringOrder();
    FromListSorted(FieldName, Less, fs);
    FromListTotal(FieldName, Less, SizeOfField, fs);
    FromListTotal(FieldName, Less, ItemsOfField, fs);
  }

  lemma {:induction false} CanonAllShrinks(ts: seq<TypeSchema>)
    ensures SizeOfAll(CanonSchemas(ts)) <= SizeOfAll(ts) && ItemsOfAll(CanonSchemas(ts)) <= ItemsOfAll(ts)
    decreases ts
  {
    if ts != [] {
      CanonShrinks(ts[0]);
      CanonAllShrinks(ts[1..]);
      assert CanonSchemas(ts)[1..] == CanonSchemas(ts[1..]);
    }
  }

  lemma {:induction false} CanonFieldsShrinks(fs: seq<Field>)
    ensures SizeOfFields(CanonFields(fs)) <= SizeOfFields(fs) && ItemsOfFields(CanonFields(fs)) <= ItemsOfFields(fs)
    decreases fs
  {
    if fs != [] {
      assert fs[0].ty < fs[0];
      CanonShrinks(fs[0].ty);
      CanonFieldsShrinks(fs[1..]);
      assert CanonFields(fs)[1..] == CanonFields(fs[1..]);
    }
  }

  lemma {:induction false} CanonFits(depth: nat, t: TypeSchema)
    requires FitsSchema(depth, t)
    ensures FitsSchema(depth, CanonSchema(t))
    decreases t
  {
    match t {
      case Named(_, ts) => CanonAllFits(depth + 1, ts);
      case Array(u) => CanonFits(depth + 1, u);
      case Map(u) => CanonFits(depth + 1, u);
      case Optional(u) => CanonFits(depth + 1, u);
      case Tuple(ts) => CanonAllFits(depth + 1, ts);
      case TupleRest(ts, u) =>
        CanonAllFits(depth + 1, ts);
        CanonFits(depth + 1, u);
      case Callable(ts, u) =>
        CanonAllFits(depth + 1, ts);
        CanonFits(depth + 1, u);
      case Object(fs) => CanonFieldsFit(depth + 1, fs);
      case _ =>
    }
  }

  lemma {:induction false} CanonAllFits(depth: nat, ts: seq<TypeSchema>)
    requires FitsSchemas(depth, ts)
    ensures FitsSchemas(depth, CanonSchemas(ts))
    decreases ts
  {
    forall t | t in ts ensures FitsSchema(depth, CanonSchema(t)) { CanonFits(depth, t); }
  }

  lemma {:induction false} CanonFieldsFit(depth: nat, fs: seq<Field>)
    requires FitsFields(depth, fs)
    ensures var m := FromList(FieldName, Less, CanonFields(fs)); FitsFields(depth, m) && |m| <= |fs|
    decreases fs
  {
    forall f | f in fs ensures FitsField(depth, CanonField(f)) {
      assert FitsField(depth, f);
      CanonFits(depth, f.ty);
    }
    StringOrder();
    FromListSorted(FieldName, Less, CanonFields(fs));
  }

  /** A decoded schema is its own map form. */
  lemma {:induction false} CanonIdempotent(t: TypeSchema)
    ensures CanonSchema(CanonSchema(t)) == CanonSchema(t)
    decreases t
  {
    match t {
      case Named(_, ts) => CanonAllIdempotent(ts);
      case Array(u) => CanonIdempotent(u);
      case Map(u) => CanonIdempotent(u);
      case Optional(u) => CanonIdempotent(u);
      case Tuple(ts) => CanonAllIdempotent(ts);
      case TupleRest(ts, u) =>
        CanonAllIdempotent(ts);
        CanonIdempotent(u);
      case Callable(ts, u) =>
        CanonAllIdempotent(ts);
        CanonIdempotent(u);
      case Object(fs) => CanonFieldsIdempotent(fs);
      case _ =>
    }
  }

  lemma {:induction false} CanonAllIdempotent(ts: seq<TypeSchema>)
    ensures CanonSchemas(CanonSchemas(ts)) == CanonSchemas(ts)
    decreases ts
  {
    forall t | t in ts ensures CanonSchema(CanonSchema(t)) == CanonSchema(t) { CanonIdempotent(t); }
  }

  lemma {:induction false} CanonFieldsIdempotent(fs: seq<Field>)
    ensures CanonSchema(CanonSchema(Object(fs))) == CanonSchema(Object(fs))
    decreases fs
  {
    forall f | f in fs ensures CanonField(CanonField(f)) == CanonField(f) { CanonIdempotent(f.ty); }
    ObjectFixed(CanonFields(fs));
  }

  lemma FieldsFixed(fs: seq<Field>)
    requires forall f <- fs :: CanonField(f) == f
    ensures CanonFields(fs) == fs
  {
    hide CanonField;
  }

  lemma ObjectFixed(fs: seq<Field>)
    requires forall f <- fs :: CanonField(f) == f
    ensures var m := Object(FromList(FieldName, Less, fs)); CanonSchema(m) == m
  {
    hide FromList, Less, CanonField;
    var m := FromList(FieldName, Less, fs);
    StringOrder();
    FromListSorted(FieldName, Less, fs);
    FieldsFixed(m);
    FromSorted(FieldName, Less, m);
  }
}
