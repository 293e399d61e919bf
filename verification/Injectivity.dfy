/** Unique decoding of all that can be written. */
module Injectivity {
  import opened Bytes
  import opened Wire
  import opened Lists
  import opened Programs
  import opened Sections
  import opened CallableSections
  import opened HostInjective
  import opened Payload
  import opened TreeWriters
  import opened SectionWriters
  import opened Encoder
  import Constants
  import Schemas

  /** What `p` puts before two tails is the same only for the same value and tail. */
  ghost predicate Injective<T(!new)>(p: (T, Cur) -> Cur, ok: T -> bool) {
    forall v, x, w, y {:trigger p(v, x), p(w, y)} | ok(v) && ok(w) && p(v, x).rest == p(w, y).rest :: v == w && x.rest == y.rest
  }

  lemma {:induction false} ManyInjective<T(!new)>(p: (T, Cur) -> Cur, ok: T -> bool, vs: seq<T>, x: Cur, ws: seq<T>, y: Cur)
    requires Injective(p, ok) && |vs| == |ws| && (forall v <- vs :: ok(v)) && (forall w <- ws :: ok(w))
    requires PutMany(vs, p, x).rest == PutMany(ws, p, y).rest
    ensures vs == ws && x.rest == y.rest
  {
    if vs != [] {
      assert vs[0] in vs && ws[0] in ws;
      assert p(vs[0], PutMany(vs[1..], p, x)).rest == p(ws[0], PutMany(ws[1..], p, y)).rest;
      ManyInjective(p, ok, vs[1..], x, ws[1..], y);
    }
  }

  lemma ListInjective<T(!new)>(p: (T, Cur) -> Cur, ok: T -> bool, vs: seq<T>, x: Cur, ws: seq<T>, y: Cur)
    requires Injective(p, ok) && Short(vs) && Short(ws) && (forall v <- vs :: ok(v)) && (forall w <- ws :: ok(w))
    requires PutList(vs, p, x).rest == PutList(ws, p, y).rest
    ensures vs == ws && x.rest == y.rest
  {
    hide PutCount;
    CountInjective(|vs|, PutMany(vs, p, x), |ws|, PutMany(ws, p, y));
    ManyInjective(p, ok, vs, x, ws, y);
  }

  lemma OptionInjective<T(!new)>(p: (T, Cur) -> Cur, ok: T -> bool, v: Option<T>, x: Cur, w: Option<T>, y: Cur)
    requires Injective(p, ok) && (v.Some? ==> ok(v.value)) && (w.Some? ==> ok(w.value)) && PutOption(v, p, x).rest == PutOption(w, p, y).rest
    ensures v == w && x.rest == y.rest
  {
    hide PutU8;
    var f := (o: Option<T>, s: Cur) => if o.Some? then p(o.value, s) else s;
    ByteInjective(if v.Some? then 1 else 0, f(v, x), if w.Some? then 1 else 0, f(w, y));
  }

  lemma HalfInjective(v: u16, s: Cur, w: u16, t: Cur)
    requires PutU16(v, s).rest == PutU16(w, t).rest
    ensures v == w && s.rest == t.rest
  {
    Widths();
    LEInjective(v, w, 2, s.rest, t.rest);
  }

  lemma QuadInjective(v: u32, s: Cur, w: u32, t: Cur)
    requires PutU32(v, s).rest == PutU32(w, t).rest
    ensures v == w && s.rest == t.rest
  {
    Widths();
    LEInjective(v, w, 4, s.rest, t.rest);
  }

  // ---------------------------------------------------------------- constants

  function ValueTag(v: Constants.Value): u8 {
    match v
    case Int(_) => 0
    case Bool(_) => 1
    case Text(_) => 2
    case Float(_) => 3
    case Null => 4
    case Blob(_) => 5
    case Array(_) => 6
    case Map(_) => 7
    case Callable(_) => 8
  }

  function ValueBody(v: Constants.Value, s: Cur): Cur {
    match v
    case Int(i) => PutU64(ToBits(i), s)
    case Bool(b) => PutU8(if b then 1 else 0, s)
    case Text(x) => PutBlob(x, s)
    case Float(bits) => PutU64(bits, s)
    case Blob(x) => PutBlob(x, s)
    case Array(vs) => PutCount(|vs|, Constants.PutValues(vs, s))
    case Map(es) => PutCount(|es|, Constants.PutEntries(es, s))
    case _ => s
  }

  lemma ValueSplits(v: Constants.Value, x: Cur, w: Constants.Value, y: Cur)
    requires !v.Callable? && !w.Callable? && Constants.PutValue(v, x).rest == Constants.PutValue(w, y).rest
    ensures ValueTag(v) == ValueTag(w) && ValueBody(v, x).rest == ValueBody(w, y).rest
  {
    hide PutU8, PutU64, PutBlob, PutCount;
    assert Constants.PutValue(v, x) == PutU8(ValueTag(v), ValueBody(v, x));
    assert Constants.PutValue(w, y) == PutU8(ValueTag(w), ValueBody(w, y));
    ByteInjective(ValueTag(v), ValueBody(v, x), ValueTag(w), ValueBody(w, y));
  }

  lemma BitsInjective(i: i64, j: i64)
    requires ToBits(i) == ToBits(j)
    ensures i == j
  {
  }

  lemma {:induction false} ValueInjective(depth: nat, v: Constants.Value, x: Cur, w: Constants.Value, y: Cur)
    requires Writable(depth, v) && Writable(depth, w) && Constants.PutValue(v, x).rest == Constants.PutValue(w, y).rest
    ensures v == w && x.rest == y.rest
    decreases v
  {
    hide PutU8, PutU64, PutBlob, PutCount, ToBits;
    ValueSplits(v, x, w, y);
    match v {
      case Int(i) =>
        WordInjective(ToBits(i), x, ToBits(w.i), y);
        BitsInjective(i, w.i);
      case Bool(b) => ByteInjective(if b then 1 else 0, x, if w.flag then 1 else 0, y);
      case Text(t) => BlobInjective(t, x, w.text, y);
      case Float(bits) => WordInjective(bits, x, w.bits, y);
      case Blob(t) => BlobInjective(t, x, w.data, y);
      case Array(vs) =>
        CountInjective(|vs|, Constants.PutValues(vs, x), |w.items|, Constants.PutValues(w.items, y));
        ValuesInjective(depth + 1, vs, x, w.items, y);
      case Map(es) =>
        CountInjective(|es|, Constants.PutEntries(es, x), |w.entries|, Constants.PutEntries(w.entries, y));
        PairsInjective(depth + 1, es, x, w.entries, y);
      case _ =>
    }
  }

  lemma {:induction false} ValuesInjective(depth: nat, vs: seq<Constants.Value>, x: Cur, ws: seq<Constants.Value>, y: Cur)
    requires |vs| == |ws| && (forall v <- vs :: Writable(depth, v)) && (forall w <- ws :: Writable(depth, w))
    requires Constants.PutValues(vs, x).rest == Constants.PutValues(ws, y).rest
    ensures vs == ws && x.rest == y.rest
    decreases vs
  {
    if vs != [] {
      ValueInjective(depth, vs[0], Constants.PutValues(vs[1..], x), ws[0], Constants.PutValues(ws[1..], y));
      ValuesInjective(depth, vs[1..], x, ws[1..], y);
    }
  }

  lemma {:induction false} PairsInjective(depth: nat, es: seq<Constants.Entry>, x: Cur, fs: seq<Constants.Entry>, y: Cur)
    requires |es| == |fs| && (forall e <- es :: WritablePair(depth, e)) && (forall f <- fs :: WritablePair(depth, f))
    requires Constants.PutEntries(es, x).rest == Constants.PutEntries(fs, y).rest
    ensures es == fs && x.rest == y.rest
    decreases es
  {
    if es != [] {
      var e, f := es[0], fs[0];
      var r, s := Constants.PutEntries(es[1..], x), Constants.PutEntries(fs[1..], y);
      assert WritablePair(depth, e) && WritablePair(depth, f) && e.key < e && e.value < e;
      ValueInjective(depth, e.key, Constants.PutValue(e.value, r), f.key, Constants.PutValue(f.value, s));
      ValueInjective(depth, e.value, r, f.value, s);
      PairsInjective(depth, es[1..], x, fs[1..], y);
    }
  }

  // ---------------------------------------------------------------- guest schemas

  function SchemaTag(t: Schemas.TypeSchema): u8 {
    match t
    case Basic(k) => Schemas.ScalarTag(k)
    case GenericParam(_) => 8
    case Named(_, _) => 9
    case Array(_) => 10
    case Tuple(_) => 11
    case TupleRest(_, _) => 12
    case Map(_) => 13
    case Object(_) => 14
    case Callable(_, _) => 15
    case Optional(_) => 16
    case Resource(_) => 17
  }

  function SchemaBody(t: Schemas.TypeSchema, s: Cur): Cur {
    match t
    case Basic(_) => s
    case GenericParam(x) => PutBlob(x, s)
    case Resource(x) => PutBlob(x, s)
    case Named(x, ts) => PutBlob(x, Schemas.PutParts(ts, s))
    case Array(u) => Schemas.PutSchema(u, s)
    case Map(u) => Schemas.PutSchema(u, s)
    case Optional(u) => Schemas.PutSchema(u, s)
    case Tuple(ts) => Schemas.PutParts(ts, s)
    case TupleRest(ts, u) => Schemas.PutParts(ts, Schemas.PutSchema(u, s))
    case Callable(ts, u) => Schemas.PutParts(ts, Schemas.PutSchema(u, s))
    case Object(fs) => PutCount(|fs|, Schemas.PutFields(fs, s))
  }

  lemma SchemaSplits(t: Schemas.TypeSchema, x: Cur, u: Schemas.TypeSchema, y: Cur)
    requires Schemas.PutSchema(t, x).rest == Schemas.PutSchema(u, y).rest
    ensures SchemaTag(t) == SchemaTag(u) && SchemaBody(t, x).rest == SchemaBody(u, y).rest
  {
    hide PutU8, PutBlob, PutCount;
    assert Schemas.PutSchema(t, x) == Charge(1, PutU8(SchemaTag(t), SchemaBody(t, x)));
    assert Schemas.PutSchema(u, y) == Charge(1, PutU8(SchemaTag(u), SchemaBody(u, y)));
    ByteInjective(SchemaTag(t), SchemaBody(t, x), SchemaTag(u), SchemaBody(u, y));
  }

  lemma {:induction false} SchemaInjectiveAt(t: Schemas.TypeSchema, x: Cur, u: Schemas.TypeSchema, y: Cur)
    requires WritableSchema(t) && WritableSchema(u) && Schemas.PutSchema(t, x).rest == Schemas.PutSchema(u, y).rest
    ensures t == u && x.rest == y.rest
    decreases t, 0
  {
    hide PutU8, PutBlob, PutCount, Schemas.PutParts;
    SchemaSplits(t, x, u, y);
    match t {
      case Basic(_) =>
      case GenericParam(n) => BlobInjective(n, x, u.name, y);
      case Resource(n) => BlobInjective(n, x, u.key, y);
      case Array(v) => SchemaInjectiveAt(v, x, u.item, y);
      case Map(v) => SchemaInjectiveAt(v, x, u.item, y);
      case Optional(v) => SchemaInjectiveAt(v, x, u.item, y);
      case Named(n, ts) =>
        BlobInjective(n, Schemas.PutParts(ts, x), u.name, Schemas.PutParts(u.args, y));
        PartsInjective(ts, x, u.args, y);
      case Tuple(ts) => PartsInjective(ts, x, u.items, y);
      case TupleRest(ts, v) =>
        PartsInjective(ts, Schemas.PutSchema(v, x), u.items, Schemas.PutSchema(u.last, y));
        SchemaInjectiveAt(v, x, u.last, y);
      case Callable(ts, v) =>
        PartsInjective(ts, Schemas.PutSchema(v, x), u.items, Schemas.PutSchema(u.last, y));
        SchemaInjectiveAt(v, x, u.last, y);
      case Object(fs) =>
        CountInjective(|fs|, Schemas.PutFields(fs, x), |u.fields|, Schemas.PutFields(u.fields, y));
        FieldsInjective(fs, x, u.fields, y);
    }
  }

  lemma {:induction false} PartsInjective(ts: seq<Schemas.TypeSchema>, x: Cur, us: seq<Schemas.TypeSchema>, y: Cur)
    requires Short(ts) && Short(us) && (forall t <- ts :: WritableSchema(t)) && (forall u <- us :: WritableSchema(u))
    requires Schemas.PutParts(ts, x).rest == Schemas.PutParts(us, y).rest
    ensures ts == us && x.rest == y.rest
    decreases ts, 2
  {
    hide PutCount;
    CountInjective(|ts|, Schemas.PutSchemas(ts, x), |us|, Schemas.PutSchemas(us, y));
    SchemasInjective(ts, x, us, y);
  }

  lemma {:induction false} SchemasInjective(ts: seq<Schemas.TypeSchema>, x: Cur, us: seq<Schemas.TypeSchema>, y: Cur)
    requires |ts| == |us| && (forall t <- ts :: WritableSchema(t)) && (forall u <- us :: WritableSchema(u))
    requires Schemas.PutSchemas(ts, x).rest == Schemas.PutSchemas(us, y).rest
    ensures ts == us && x.rest == y.rest
    decreases ts, 1
  {
    if ts != [] {
      SchemaInjectiveAt(ts[0], Schemas.PutSchemas(ts[1..], x), us[0], Schemas.PutSchemas(us[1..], y));
      SchemasInjective(ts[1..], x, us[1..], y);
    }
  }

  lemma {:induction false} FieldsInjective(fs: seq<Schemas.Field>, x: Cur, gs: seq<Schemas.Field>, y: Cur)
    requires |fs| == |gs| && (forall f <- fs :: WritableField(f)) && (forall g <- gs :: WritableField(g))
    requires Schemas.PutFields(fs, x).rest == Schemas.PutFields(gs, y).rest
    ensures fs == gs && x.rest == y.rest
    decreases fs, 1
  {
    if fs != [] {
      hide PutBlob;
      var f, g, r, s := fs[0], gs[0], Schemas.PutFields(fs[1..], x), Schemas.PutFields(gs[1..], y);
      assert WritableField(f) && WritableField(g) && f.ty < f;
      BlobInjective(f.name, Schemas.PutSchema(f.ty, r), g.name, Schemas.PutSchema(g.ty, s));
      SchemaInjectiveAt(f.ty, r, g.ty, s);
      FieldsInjective(fs[1..], x, gs[1..], y);
    }
  }

  // ---------------------------------------------------------------- sections

  lemma SmallInjective()
    ensures Injective(PutBool, Any) && Injective(PutTop, WritableSchema) && Injective(PutOptSchema, WritableOpt)
    ensures Injective(PutConst, WritableConst) && Injective(PutBlob, WritableName)
  {
    forall v, x, w, y | PutBool(v, x).rest == PutBool(w, y).rest ensures v == w && x.rest == y.rest {
      ByteInjective(if v then 1 else 0, x, if w then 1 else 0, y);
    }
    forall v, x, w, y | WritableSchema(v) && WritableSchema(w) && PutTop(v, x).rest == PutTop(w, y).rest ensures v == w && x.rest == y.rest {
      SchemaInjectiveAt(v, x, w, y);
    }
    forall v, x, w, y | WritableConst(v) && WritableConst(w) && PutConst(v, x).rest == PutConst(w, y).rest ensures v == w && x.rest == y.rest {
      ValueInjective(0, v, x, w, y);
    }
    forall v, x, w, y | WritableName(v) && WritableName(w) && PutBlob(v, x).rest == PutBlob(w, y).rest ensures v == w && x.rest == y.rest {
      BlobInjective(v, x, w, y);
    }
    hide PutTop, PutConst, PutBlob;
    forall v, x, w, y | WritableOpt(v) && WritableOpt(w) && PutOptSchema(v, x).rest == PutOptSchema(w, y).rest ensures v == w && x.rest == y.rest {
      OptionInjective(PutTop, WritableSchema, v, x, w, y);
    }
  }

  lemma OptNumbers(v: Option<u32>, x: Cur, w: Option<u32>, y: Cur)
    requires PutOptU32(v, x).rest == PutOptU32(w, y).rest
    ensures v == w && x.rest == y.rest
  {
    hide PutU8, PutU32;
    ByteInjective(if v.Some? then 1 else 0, if v.Some? then PutU32(v.value, x) else x,
                  if w.Some? then 1 else 0, if w.Some? then PutU32(w.value, y) else y);
    if v.Some? { QuadInjective(v.value, x, w.value, y); }
  }

  lemma OptSlots(v: Option<u16>, x: Cur, w: Option<u16>, y: Cur)
    requires PutSelf(v, x).rest == PutSelf(w, y).rest
    ensures v == w && x.rest == y.rest
  {
    hide PutU8, PutU16;
    ByteInjective(if v.Some? then 1 else 0, if v.Some? then PutU16(v.value, x) else x,
                  if w.Some? then 1 else 0, if w.Some? then PutU16(w.value, y) else y);
    if v.Some? { HalfInjective(v.value, x, w.value, y); }
  }

  lemma PairsOfNumbers()
    ensures Injective(PutOperand, Any) && Injective(PutLine, Any) && Injective(PutScriptFunction, Any)
    ensures Injective(PutRegion, Any) && Injective(PutBinding, Any)
  {
    hide PutU8, PutU16, PutU32, PutOptU32;
    forall v, x, w, y | PutOperand(v, x).rest == PutOperand(w, y).rest ensures v == w && x.rest == y.rest {
      QuadInjective(v.offset, PutU8(v.lhs, PutU8(v.rhs, x)), w.offset, PutU8(w.lhs, PutU8(w.rhs, y)));
      ByteInjective(v.lhs, PutU8(v.rhs, x), w.lhs, PutU8(w.rhs, y));
      ByteInjective(v.rhs, x, w.rhs, y);
    }
    forall v, x, w, y | PutLine(v, x).rest == PutLine(w, y).rest ensures v == w && x.rest == y.rest {
      QuadInjective(v.offset, PutU32(v.line, x), w.offset, PutU32(w.line, y));
      QuadInjective(v.line, x, w.line, y);
    }
    forall v, x, w, y | PutScriptFunction(v, x).rest == PutScriptFunction(w, y).rest ensures v == w && x.rest == y.rest {
      QuadInjective(v.entry, PutU32(v.end, x), w.entry, PutU32(w.end, y));
      QuadInjective(v.end, x, w.end, y);
    }
    forall v, x, w, y | PutRegion(v, x).rest == PutRegion(w, y).rest ensures v == w && x.rest == y.rest {
      QuadInjective(v.start, PutU32(v.end, PutOptU32(v.prototype, x)), w.start, PutU32(w.end, PutOptU32(w.prototype, y)));
      QuadInjective(v.end, PutOptU32(v.prototype, x), w.end, PutOptU32(w.prototype, y));
      OptNumbers(v.prototype, x, w.prototype, y);
    }
    forall v, x, w, y | PutBinding(v, x).rest == PutBinding(w, y).rest ensures v == w && x.rest == y.rest {
      HalfInjective(v.slot, PutU32(v.prototype, x), w.slot, PutU32(w.prototype, y));
      QuadInjective(v.prototype, x, w.prototype, y);
    }
  }

  lemma NamedInjective()
    ensures Injective(PutArg, WritableArg) && Injective(PutExport, WritableExport) && Injective(PutLocal, WritableLocal)
  {
    hide PutU8, PutU16, PutBlob, PutOptU32;
    forall v, x, w, y | WritableArg(v) && WritableArg(w) && PutArg(v, x).rest == PutArg(w, y).rest ensures v == w && x.rest == y.rest {
      BlobInjective(v.name, PutU8(v.position, x), w.name, PutU8(w.position, y));
      ByteInjective(v.position, x, w.position, y);
    }
    forall v, x, w, y | WritableExport(v) && WritableExport(w) && PutExport(v, x).rest == PutExport(w, y).rest ensures v == w && x.rest == y.rest {
      BlobInjective(v.name, PutU16(v.slot, x), w.name, PutU16(w.slot, y));
      HalfInjective(v.slot, x, w.slot, y);
    }
    forall v, x, w, y | WritableLocal(v) && WritableLocal(w) && PutLocal(v, x).rest == PutLocal(w, y).rest ensures v == w && x.rest == y.rest {
      var r, s := PutOptU32(v.declared, PutOptU32(v.last, x)), PutOptU32(w.declared, PutOptU32(w.last, y));
      BlobInjective(v.name, PutU8(v.index, r), w.name, PutU8(w.index, s));
      ByteInjective(v.index, r, w.index, s);
      OptNumbers(v.declared, PutOptU32(v.last, x), w.declared, PutOptU32(w.last, y));
      OptNumbers(v.last, x, w.last, y);
    }
  }

  lemma FunctionInjective()
    ensures Injective(PutFunction, WritableFunction)
  {
    NamedInjective();
    hide PutBlob, PutArg, PutList;
    forall v, x, w, y | WritableFunction(v) && WritableFunction(w) && PutFunction(v, x).rest == PutFunction(w, y).rest ensures v == w && x.rest == y.rest {
      BlobInjective(v.name, PutList(v.args, PutArg, x), w.name, PutList(w.args, PutArg, y));
      ListInjective(PutArg, WritableArg, v.args, x, w.args, y);
    }
  }

  lemma DebugInjective()
    ensures Injective(PutDebug, WritableDebug)
  {
    SmallInjective();
    PairsOfNumbers();
    NamedInjective();
    FunctionInjective();
    hide PutBlob, PutLine, PutFunction, PutLocal, PutList, PutOption, WritableFunction;
    forall v, x, w, y | WritableDebug(v) && WritableDebug(w) && PutDebug(v, x).rest == PutDebug(w, y).rest ensures v == w && x.rest == y.rest {
      var x1, y1 := PutList(v.locals, PutLocal, x), PutList(w.locals, PutLocal, y);
      var x2, y2 := PutList(v.functions, PutFunction, x1), PutList(w.functions, PutFunction, y1);
      var x3, y3 := PutList(v.lines, PutLine, x2), PutList(w.lines, PutLine, y2);
      OptionInjective(PutBlob, WritableName, v.source, x3, w.source, y3);
      ListInjective(PutLine, Any, v.lines, x2, w.lines, y2);
      ListInjective(PutFunction, WritableFunction, v.functions, x1, w.functions, y1);
      ListInjective(PutLocal, WritableLocal, v.locals, x, w.locals, y);
    }
  }

  lemma {:induction false} TypesInjective(vs: seq<ValueType>, x: Cur, ws: seq<ValueType>, y: Cur)
    requires |vs| == |ws| && PutMany(vs, PutValueType, x).rest == PutMany(ws, PutValueType, y).rest
    ensures vs == ws && x.rest == y.rest
  {
    if vs != [] {
      ByteInjective(vs[0], PutMany(vs[1..], PutValueType, x), ws[0], PutMany(ws[1..], PutValueType, y));
      TypesInjective(vs[1..], x, ws[1..], y);
    }
  }

  /** What follows the schemas of a type map, and the schemas with it. */
  function AfterSchemas(m: TypeMap, s: Cur): Cur {
    PutList(m.callables, PutBool, PutList(m.optionals, PutBool, PutList(m.operands, PutOperand, s)))
  }

  function AfterLocals(m: TypeMap, s: Cur): Cur { PutMany(m.schemas, PutOptSchema, AfterSchemas(m, s)) }

  /** The flag and the locals can be told from the bytes of any two type maps. */
  lemma LocalsInjective(v: TypeMap, x: Cur, w: TypeMap, y: Cur)
    requires Short(v.locals) && Short(w.locals) && PutTypeMap(v, x).rest == PutTypeMap(w, y).rest
    ensures v.strict == w.strict && v.locals == w.locals && AfterLocals(v, x).rest == AfterLocals(w, y).rest
  {
    SmallInjective();
    hide PutBool, PutMany, PutCount, AfterLocals;
    var x4, y4 := AfterLocals(v, x), AfterLocals(w, y);
    var x5, y5 := PutMany(v.locals, PutValueType, x4), PutMany(w.locals, PutValueType, y4);
    TypeMapParts(v, x);
    TypeMapParts(w, y);
    CountInjective(|v.locals|, x5, |w.locals|, y5);
    TypesInjective(v.locals, x4, w.locals, y4);
  }

  lemma TypeMapParts(m: TypeMap, s: Cur)
    ensures PutTypeMap(m, s) == PutBool(m.strict, PutCount(|m.locals|, PutMany(m.locals, PutValueType, AfterLocals(m, s))))
  {
    hide PutBool, PutCount, PutMany, PutList;
  }

  /** A type map's schema list has no count of its own: with equally many schemas the bytes determine the type map. */
  lemma TypeMapInjective(v: TypeMap, x: Cur, w: TypeMap, y: Cur)
    requires WritableTypeMap(v) && WritableTypeMap(w) && |v.schemas| == |w.schemas| && PutTypeMap(v, x).rest == PutTypeMap(w, y).rest
    ensures v == w && x.rest == y.rest
  {
    LocalsInjective(v, x, w, y);
    SmallInjective();
    PairsOfNumbers();
    hide PutBool, PutOperand, PutOptSchema, PutTypeMap, PutList, PutMany, PutCount, WritableOpt;
    var x1, y1 := PutList(v.operands, PutOperand, x), PutList(w.operands, PutOperand, y);
    var x2, y2 := PutList(v.optionals, PutBool, x1), PutList(w.optionals, PutBool, y1);
    ManyInjective(PutOptSchema, WritableOpt, v.schemas, AfterSchemas(v, x), w.schemas, AfterSchemas(w, y));
    ListInjective(PutBool, Any, v.callables, x2, w.callables, y2);
    ListInjective(PutBool, Any, v.optionals, x1, w.optionals, y1);
    ListInjective(PutOperand, Any, v.operands, x, w.operands, y);
  }

  // ---------------------------------------------------------------- callables and declarations

  lemma {:induction false} ManyHalves(vs: seq<u16>, x: Cur, ws: seq<u16>, y: Cur)
    requires |vs| == |ws| && PutMany(vs, PutU16, x).rest == PutMany(ws, PutU16, y).rest
    ensures vs == ws && x.rest == y.rest
  {
    if vs != [] {
      HalfInjective(vs[0], PutMany(vs[1..], PutU16, x), ws[0], PutMany(ws[1..], PutU16, y));
      ManyHalves(vs[1..], x, ws[1..], y);
    }
  }

  lemma {:induction false} ManyModes(vs: seq<CaptureMode>, x: Cur, ws: seq<CaptureMode>, y: Cur)
    requires |vs| == |ws| && PutMany(vs, PutMode, x).rest == PutMany(ws, PutMode, y).rest
    ensures vs == ws && x.rest == y.rest
  {
    if vs != [] {
      ByteInjective(vs[0], PutMany(vs[1..], PutMode, x), ws[0], PutMany(ws[1..], PutMode, y));
      ManyModes(vs[1..], x, ws[1..], y);
    }
  }

  lemma SlotsInjective(vs: seq<u16>, x: Cur, ws: seq<u16>, y: Cur)
    requires Short(vs) && Short(ws) && PutSlots(vs, x).rest == PutSlots(ws, y).rest
    ensures vs == ws && x.rest == y.rest
  {
    hide PutCount;
    CountInjective(|vs|, PutMany(vs, PutU16, x), |ws|, PutMany(ws, PutU16, y));
    ManyHalves(vs, x, ws, y);
  }

  lemma ModesInjective(vs: seq<CaptureMode>, x: Cur, ws: seq<CaptureMode>, y: Cur)
    requires Short(vs) && Short(ws) && PutModes(vs, x).rest == PutModes(ws, y).rest
    ensures vs == ws && x.rest == y.rest
  {
    hide PutCount;
    CountInjective(|vs|, PutMany(vs, PutMode, x), |ws|, PutMany(ws, PutMode, y));
    ManyModes(vs, x, ws, y);
  }

  lemma TargetInjective(v: Target, x: Cur, w: Target, y: Cur)
    requires PutTarget(v, x).rest == PutTarget(w, y).rest
    ensures v == w && x.rest == y.rest
  {
    hide PutU8, PutU32;
    var a, b := if v.Script? then v.id else v.index, if w.Script? then w.id else w.index;
    ByteInjective(if v.Script? then 0 else 1, PutU32(a, x), if w.Script? then 0 else 1, PutU32(b, y));
    QuadInjective(a, x, b, y);
  }

  lemma LayoutInjective(v: Prototype, x: Cur, w: Prototype, y: Cur)
    requires WritablePrototype(v) && WritablePrototype(w) && PutLayout(v, x).rest == PutLayout(w, y).rest
    ensures v.params == w.params && v.sources == w.sources && v.captures == w.captures && v.modes == w.modes
    ensures v.self == w.self && v.schema == w.schema && x.rest == y.rest
  {
    hide PutSlots, PutModes, PutSelf, PutOptSchema, WritableOpt;
    var x1, y1 := PutOptSchema(v.schema, x), PutOptSchema(w.schema, y);
    var x2, y2 := PutSelf(v.self, x1), PutSelf(w.self, y1);
    var x3, y3 := PutModes(v.modes, x2), PutModes(w.modes, y2);
    var x4, y4 := PutSlots(v.captures, x3), PutSlots(w.captures, y3);
    var x5, y5 := PutSlots(v.sources, x4), PutSlots(w.sources, y4);
    SlotsInjective(v.params, x5, w.params, y5);
    SlotsInjective(v.sources, x4, w.sources, y4);
    SlotsInjective(v.captures, x3, w.captures, y3);
    ModesInjective(v.modes, x2, w.modes, y2);
    OptSlots(v.self, x1, w.self, y1);
    SmallInjective();
  }

  lemma PrototypeInjective()
    ensures Injective(PutPrototype, WritablePrototype)
  {
    hide PutU8, PutTarget, PutCount, PutLayout;
    forall v, x, w, y | WritablePrototype(v) && WritablePrototype(w) && PutPrototype(v, x).rest == PutPrototype(w, y).rest ensures v == w && x.rest == y.rest {
      var x1, y1 := PutCount(v.frameLocals, PutLayout(v, x)), PutCount(w.frameLocals, PutLayout(w, y));
      ByteInjective(v.kind, PutTarget(v.target, PutU8(v.arity, x1)), w.kind, PutTarget(w.target, PutU8(w.arity, y1)));
      TargetInjective(v.target, PutU8(v.arity, x1), w.target, PutU8(w.arity, y1));
      ByteInjective(v.arity, x1, w.arity, y1);
      CountInjective(v.frameLocals, PutLayout(v, x), w.frameLocals, PutLayout(w, y));
      LayoutInjective(v, x, w, y);
    }
  }

  lemma CallablesInjective()
    ensures Injective(PutCallables, WritableCallables)
  {
    PairsOfNumbers();
    NamedInjective();
    PrototypeInjective();
    hide PutScriptFunction, PutPrototype, PutRegion, PutBinding, PutExport, PutList, WritablePrototype;
    forall v, x, w, y | WritableCallables(v) && WritableCallables(w) && PutCallables(v, x).rest == PutCallables(w, y).rest ensures v == w && x.rest == y.rest {
      var x1, y1 := PutList(v.exports, PutExport, x), PutList(w.exports, PutExport, y);
      var x2, y2 := PutList(v.bindings, PutBinding, x1), PutList(w.bindings, PutBinding, y1);
      var x3, y3 := PutList(v.regions, PutRegion, x2), PutList(w.regions, PutRegion, y2);
      var x4, y4 := PutList(v.prototypes, PutPrototype, x3), PutList(w.prototypes, PutPrototype, y3);
      ListInjective(PutScriptFunction, Any, v.functions, x4, w.functions, y4);
      ListInjective(PutPrototype, WritablePrototype, v.prototypes, x3, w.prototypes, y3);
      ListInjective(PutRegion, Any, v.regions, x2, w.regions, y2);
      ListInjective(PutBinding, Any, v.bindings, x1, w.bindings, y1);
      ListInjective(PutExport, WritableExport, v.exports, x, w.exports, y);
    }
  }

  lemma DeclInjective()
    ensures Injective(PutDecl, WritableDecl)
  {
    SmallInjective();
    hide PutBlob, PutTop, PutList;
    forall v, x, w, y | WritableDecl(v) && WritableDecl(w) && PutDecl(v, x).rest == PutDecl(w, y).rest ensures v == w && x.rest == y.rest {
      var x1, y1 := PutTop(v.body, x), PutTop(w.body, y);
      BlobInjective(v.name, PutList(v.params, PutBlob, x1), w.name, PutList(w.params, PutBlob, y1));
      ListInjective(PutBlob, WritableName, v.params, x1, w.params, y1);
    }
  }
}
