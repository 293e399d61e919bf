/** The sections of a payload without recursion of their own: type map and debug info. */
module Sections {
  import opened Bytes
  import opened Wire
  import opened Lists
  import opened Schemas
  import opened Programs

  // ---------------------------------------------------------------- small elements

  predicate Any<T>(v: T) { true }

  function ReadBool(s: Cur): (r: Read<bool>)
    ensures r.Got? ==> s == PutBool(r.v, r.s)
  {
    var (x, s) :- ReadU8(s);
    if x > 1 then Fail(InvalidBool(x)) else Got(x == 1, s)
  }

  function PutBool(b: bool, s: Cur): Cur { PutU8(if b then 1 else 0, s) }

  function ReadValueType(s: Cur): (r: Read<ValueType>)
    ensures r.Got? ==> s == PutValueType(r.v, r.s)
  {
    var (x, s) :- ReadU8(s);
    if x >= 10 then Fail(InvalidValueType(x)) else Got(x, s)
  }

  function PutValueType(t: ValueType, s: Cur): Cur { PutU8(t, s) }

  function ReadMode(s: Cur): (r: Read<CaptureMode>)
    ensures r.Got? ==> s == PutMode(r.v, r.s)
  {
    var (x, s) :- ReadU8(s);
    if x >= 4 then Fail(InvalidCaptureBindingMode(x)) else Got(x, s)
  }

  function PutMode(m: CaptureMode, s: Cur): Cur { PutU8(m, s) }

  lemma ByteLaws()
    ensures Lawful(ReadBool, PutBool, Any, 1)
    ensures Lawful(ReadValueType, PutValueType, Any, 1)
    ensures Lawful(ReadMode, PutMode, Any, 1)
  {
    hide ReadU8, PutU8;
    Primitives();
    Lengths();
    Frames();
  }

  lemma WordLaws()
    ensures Lawful(ReadU16, PutU16, Any, 2)
    ensures Lawful(ReadU32, PutU32, Any, 4)
    ensures Lawful(ReadString, PutBlob, FitsString, 4)
  {
    Primitives();
    Strings();
    Lengths();
    Frames();
    assert Sound(ReadU16, PutU16, Any) && Sound(ReadU32, PutU32, Any) && Sound(ReadString, PutBlob, FitsString);
    hide ReadU16, PutU16, ReadU32, PutU32, ReadString, PutBlob;
  }

  // ---------------------------------------------------------------- type map

  predicate FitsTop(t: TypeSchema) { FitsSchema(0, t) }
  function ReadTop(s: Cur): Read<TypeSchema> { ReadSchema(0, s) }
  function PutTop(t: TypeSchema, s: Cur): Cur { PutSchema(t, s) }

  predicate FitsOptSchema(o: Option<TypeSchema>) { o.Some? ==> FitsTop(o.value) }

  function ReadOptSchema(s: Cur): (r: Read<Option<TypeSchema>>)
    ensures r.Got? ==> FitsOptSchema(r.v) && s == PutOptSchema(r.v, r.s)
  {
    ReadOption(BoolFlag, ReadTop, s)
  }

  function PutOptSchema(o: Option<TypeSchema>, s: Cur): Cur { PutOption(o, PutTop, s) }

  function ReadOperand(s: Cur): (r: Read<Operand>)
    ensures r.Got? ==> s == PutOperand(r.v, r.s)
  {
    var (x, s) :- ReadU32(s);
    var (l, s) :- ReadValueType(s);
    var (h, s) :- ReadValueType(s);
    Got(Operand(x, l, h), s)
  }

  function PutOperand(o: Operand, s: Cur): Cur {
    PutU32(o.offset, PutValueType(o.lhs, PutValueType(o.rhs, s)))
  }

  lemma OperandLaws()
    ensures Lawful(ReadOperand, PutOperand, Any, 6)
  {
    hide ReadU8, PutU8, ReadU32, PutU32;
    forall o: Operand, s ensures ReadOperand(PutOperand(o, s)) == Got(o, s) { Primitives(); }
    forall o: Operand, s ensures |PutOperand(o, s).rest| == 6 + |s.rest| { Lengths(); }
    forall o: Operand, a, s ensures PutOperand(o, Join(a, s)) == Join(PutOperand(o, a), s) { Frames(); }
    hide ReadOperand, PutOperand;
  }

  lemma OptSchemaLaws()
    ensures Lawful(ReadOptSchema, PutOptSchema, FitsOptSchema, 1)
  {
    hide ReadU8, PutU8;
    forall o, s | FitsOptSchema(o) ensures ReadOptSchema(PutOptSchema(o, s)) == Got(o, s) {
      Primitives();
      if o.Some? { ReadPutSchema(0, o.value, s); }
    }
    forall o, s ensures |PutOptSchema(o, s).rest| >= 1 + |s.rest| {
      Lengths();
      if o.Some? { SchemaLoad(o.value, s); }
    }
    forall o, a, s ensures PutOptSchema(o, Join(a, s)) == Join(PutOptSchema(o, a), s) {
      Frames();
      if o.Some? { SchemaFrame(o.value, a, s); }
    }
    hide ReadOptSchema, PutOptSchema;
  }

  /** `read_bool_vec`: a count that must equal the one already known. */
  function ReadBools(n: nat, s: Cur): (r: Read<seq<bool>>)
    ensures r.Got? ==> |r.v| == n <= MAX_COUNT && s == PutList(r.v, PutBool, r.s)
  {
    var (c, s) :- ReadU32(s);
    if c != n then Fail(TrailingBytes)
    else if !CountFits(n, 1, 0, |s.rest|) then Fail(LengthTooLarge(n))
    else
      var (_, s) :- Debit(n, s);
      ManySound(n, ReadBool, PutBool, Any, s);
      ReadMany(n, ReadBool, s)
  }

  lemma ReadPutBools(bs: seq<bool>, s: Cur)
    requires |bs| <= MAX_COUNT
    ensures ReadBools(|bs|, PutList(bs, PutBool, s)) == Got(bs, s)
  {
    ByteLaws();
    hide ReadBool, PutBool;
    ManyComplete(bs, ReadBool, PutBool, Any, s);
    ManyAtLeast(bs, PutBool, 1, s);
    ReadPutLength(|bs|, PutMany(bs, PutBool, s));
    assert Debit(|bs|, Charge(|bs|, PutMany(bs, PutBool, s))) == Got((), PutMany(bs, PutBool, s));
    hide ReadU32, PutCount, Debit, Charge;
  }

  ghost predicate FitsTypeMap(m: TypeMap) {
    && |m.locals| <= MAX_FRAME_LOCALS
    && |m.schemas| == |m.callables| == |m.optionals| == |m.locals|
    && All(m.schemas, FitsOptSchema)
    && |m.operands| <= MAX_COUNT
  }

  function PutTypeMap(m: TypeMap, s: Cur): Cur {
    PutBool(m.strict, PutCount(|m.locals|, PutTypeMapTail(m, s)))
  }

  function PutTypeMapTail(m: TypeMap, s: Cur): Cur {
    PutMany(m.locals, PutValueType, PutMany(m.schemas, PutOptSchema,
      PutList(m.callables, PutBool, PutList(m.optionals, PutBool, PutList(m.operands, PutOperand, s)))))
  }

  function ReadTypeMap(s: Cur): (r: Read<TypeMap>)
    ensures r.Got? ==> FitsTypeMap(r.v) && s == PutTypeMap(r.v, r.s)
  {
    var (strict, s) :- ReadBool(s);
    var (n, s) :- ReadCount(4, 12, s);
    if n > MAX_FRAME_LOCALS then Fail(LengthTooLarge(n)) else ReadTypeMapTail(strict, n, s)
  }

  function ReadTypeMapTail(strict: bool, n: nat, s: Cur): (r: Read<TypeMap>)
    requires n <= MAX_FRAME_LOCALS
    ensures r.Got? ==> FitsTypeMap(r.v) && r.v.strict == strict && |r.v.locals| == n && s == PutTypeMapTail(r.v, r.s)
  {
    ManySound(n, ReadValueType, PutValueType, Any, s);
    var (locals, s) :- ReadMany(n, ReadValueType, s);
    ManySound(n, ReadOptSchema, PutOptSchema, FitsOptSchema, s);
    var (schemas, s) :- ReadMany(n, ReadOptSchema, s);
    var (callables, s) :- ReadBools(n, s);
    var (optionals, s) :- ReadBools(n, s);
    ListSound(6, 0, ReadOperand, PutOperand, Any, s);
    var (operands, s) :- ReadList(6, 0, ReadOperand, s);
    Got(TypeMap(strict, locals, schemas, callables, optionals, operands), s)
  }

  lemma TypeMapLaws()
    ensures Lawful(ReadTypeMap, PutTypeMap, FitsTypeMap, 1)
  {
    forall m, s | FitsTypeMap(m) ensures ReadTypeMap(PutTypeMap(m, s)) == Got(m, s) { ReadPutTypeMap(m, s); }
    forall m, s ensures |PutTypeMap(m, s).rest| >= 1 + |s.rest| { TypeMapLength(m, s); }
    forall m, a, s ensures PutTypeMap(m, Join(a, s)) == Join(PutTypeMap(m, a), s) { TypeMapFrame(m, a, s); }
    hide ReadTypeMap, PutTypeMap;
  }

  lemma TypeMapLength(m: TypeMap, s: Cur)
    ensures |PutTypeMapTail(m, s).rest| >= |m.locals| + |m.schemas| + |m.callables| + |m.optionals| + 12 + |s.rest|
    ensures |PutTypeMap(m, s).rest| >= 17 + |s.rest|
  {
    ByteLaws();
    OptSchemaLaws();
    OperandLaws();
    Lengths();
    hide PutBool, PutValueType, PutOptSchema, PutOperand, PutCount;
    var s1 := PutList(m.operands, PutOperand, s);
    ManyAtLeast(m.operands, PutOperand, 0, s);
    var s2 := PutList(m.optionals, PutBool, s1);
    ManyAtLeast(m.optionals, PutBool, 1, s1);
    var s3 := PutList(m.callables, PutBool, s2);
    ManyAtLeast(m.callables, PutBool, 1, s2);
    var s4 := PutMany(m.schemas, PutOptSchema, s3);
    ManyAtLeast(m.schemas, PutOptSchema, 1, s3);
    ManyAtLeast(m.locals, PutValueType, 1, s4);
  }

  lemma TypeMapFrame(m: TypeMap, a: Cur, s: Cur)
    ensures PutTypeMap(m, Join(a, s)) == Join(PutTypeMap(m, a), s)
  {
    ByteLaws();
    OptSchemaLaws();
    OperandLaws();
    Frames();
    hide PutBool, PutValueType, PutOptSchema, PutOperand, PutCount, PutMany, PutList;
    var a1 := PutList(m.operands, PutOperand, a);
    ListFrame(m.operands, PutOperand, a, s);
    var a2 := PutList(m.optionals, PutBool, a1);
    ListFrame(m.optionals, PutBool, a1, s);
    var a3 := PutList(m.callables, PutBool, a2);
    ListFrame(m.callables, PutBool, a2, s);
    var a4 := PutMany(m.schemas, PutOptSchema, a3);
    ManyFrame(m.schemas, PutOptSchema, a3, s);
    ManyFrame(m.locals, PutValueType, a4, s);
  }

  lemma ReadPutTypeMap(m: TypeMap, s: Cur)
    requires FitsTypeMap(m)
    ensures ReadTypeMap(PutTypeMap(m, s)) == Got(m, s)
  {
    var t := PutTypeMapTail(m, s);
    TypeMapLength(m, s);
    ReadPutTypeMapTail(m, s);
    ReadPutCount(|m.locals|, 4, 12, t);
    assert ReadBool(PutTypeMap(m, s)) == Got(m.strict, PutCount(|m.locals|, t)) by { ByteLaws(); }
    hide ReadBool, ReadCount, PutBool, PutCount, ReadTypeMapTail, PutTypeMapTail;
  }

  lemma ReadPutTypeMapTail(m: TypeMap, s: Cur)
    requires FitsTypeMap(m)
    ensures ReadTypeMapTail(m.strict, |m.locals|, PutTypeMapTail(m, s)) == Got(m, s)
  {
    ByteLaws();
    OptSchemaLaws();
    OperandLaws();
    hide PutBool, PutValueType, PutOptSchema, PutOperand, ReadBool, ReadValueType, ReadOptSchema, ReadOperand;
    hide ReadList, PutList, ReadMany, PutMany, ReadBools;
    var s1 := PutList(m.operands, PutOperand, s);
    ListComplete(m.operands, 6, 0, ReadOperand, PutOperand, Any, s);
    var s2 := PutList(m.optionals, PutBool, s1);
    ReadPutBools(m.optionals, s1);
    var s3 := PutList(m.callables, PutBool, s2);
    ReadPutBools(m.callables, s2);
    var s4 := PutMany(m.schemas, PutOptSchema, s3);
    ManyComplete(m.schemas, ReadOptSchema, PutOptSchema, FitsOptSchema, s3);
    ManyComplete(m.locals, ReadValueType, PutValueType, Any, s4);
  }

  // ---------------------------------------------------------------- debug information

  function ReadLine(s: Cur): (r: Read<Line>)
    ensures r.Got? ==> s == PutLine(r.v, r.s)
  {
    var (x, s) :- ReadU32(s);
    var (y, s) :- ReadU32(s);
    Got(Line(x, y), s)
  }

  function PutLine(l: Line, s: Cur): Cur { PutU32(l.offset, PutU32(l.line, s)) }

  predicate FitsArg(a: Arg) { FitsString(a.name) }

  function ReadArg(s: Cur): (r: Read<Arg>)
    ensures r.Got? ==> FitsArg(r.v) && s == PutArg(r.v, r.s)
  {
    var (x, s) :- ReadString(s);
    var (y, s) :- ReadU8(s);
    Got(Arg(x, y), s)
  }

  function PutArg(a: Arg, s: Cur): Cur { PutBlob(a.name, PutU8(a.position, s)) }

  lemma LineLaws()
    ensures Lawful(ReadLine, PutLine, Any, 8)
  {
    hide ReadU32, PutU32;
    forall l: Line, s ensures ReadLine(PutLine(l, s)) == Got(l, s) { Primitives(); }
    forall l: Line, s ensures |PutLine(l, s).rest| == 8 + |s.rest| { Lengths(); }
    forall l: Line, a, s ensures PutLine(l, Join(a, s)) == Join(PutLine(l, a), s) { Frames(); }
    hide ReadLine, PutLine;
  }

  lemma ArgLaws()
    ensures Lawful(ReadArg, PutArg, FitsArg, 5)
  {
    hide ReadU8, PutU8, ReadString, PutBlob;
    forall x, s | FitsArg(x) ensures ReadArg(PutArg(x, s)) == Got(x, s) { Primitives(); Strings(); }
    forall x: Arg, s ensures |PutArg(x, s).rest| >= 5 + |s.rest| { Lengths(); }
    forall x: Arg, a, s ensures PutArg(x, Join(a, s)) == Join(PutArg(x, a), s) { Frames(); }
    hide ReadArg, PutArg;
  }

  ghost predicate FitsFunction(f: DebugFunction) { FitsString(f.name) && FitsList(f.args, FitsArg) }

  function ReadFunction(s: Cur): (r: Read<DebugFunction>)
    ensures r.Got? ==> FitsFunction(r.v) && s == PutFunction(r.v, r.s)
  {
    var (x, s) :- ReadString(s);
    ListSound(5, 0, ReadArg, PutArg, FitsArg, s);
    var (args, s) :- ReadList(5, 0, ReadArg, s);
    Got(DebugFunction(x, args), s)
  }

  function PutFunction(f: DebugFunction, s: Cur): Cur { PutBlob(f.name, PutList(f.args, PutArg, s)) }

  lemma FunctionLaws()
    ensures Lawful(ReadFunction, PutFunction, FitsFunction, 8)
  {
    ArgLaws();
    hide ReadString, PutBlob, ReadArg, PutArg;
    forall f, s | FitsFunction(f) ensures ReadFunction(PutFunction(f, s)) == Got(f, s) {
      ListComplete(f.args, 5, 0, ReadArg, PutArg, FitsArg, s);
      Strings();
      hide ReadList, PutList;
    }
    forall f: DebugFunction, s ensures |PutFunction(f, s).rest| >= 8 + |s.rest| {
      Lengths();
      ManyAtLeast(f.args, PutArg, 0, s);
    }
    forall f: DebugFunction, a, s ensures PutFunction(f, Join(a, s)) == Join(PutFunction(f, a), s) {
      Frames();
      ListFrame(f.args, PutArg, a, s);
    }
    hide ReadFunction, PutFunction;
  }

  function ReadOptU32(s: Cur): (r: Read<Option<u32>>)
    ensures r.Got? ==> s == PutOptU32(r.v, r.s)
  {
    ReadOption(DebugFlag, ReadU32, s)
  }

  function PutOptU32(o: Option<u32>, s: Cur): Cur { PutOption(o, PutU32, s) }

  lemma OptU32Laws()
    ensures Lawful(ReadOptU32, PutOptU32, Any, 1)
  {
    hide ReadU8, PutU8, ReadU32, PutU32;
    forall o: Option<u32>, s ensures ReadOptU32(PutOptU32(o, s)) == Got(o, s) { Primitives(); }
    forall o: Option<u32>, s ensures |PutOptU32(o, s).rest| >= 1 + |s.rest| { Lengths(); }
    forall o: Option<u32>, a, s ensures PutOptU32(o, Join(a, s)) == Join(PutOptU32(o, a), s) { Frames(); }
    hide ReadOptU32, PutOptU32;
  }

  predicate FitsLocal(l: Local) { FitsString(l.name) }

  function ReadLocal(s: Cur): (r: Read<Local>)
    ensures r.Got? ==> FitsLocal(r.v) && s == PutLocal(r.v, r.s)
  {
    var (x, s) :- ReadString(s);
    var (i, s) :- ReadU8(s);
    var (d, s) :- ReadOptU32(s);
    var (l, s) :- ReadOptU32(s);
    Got(Local(x, i, d, l), s)
  }

  function PutLocal(l: Local, s: Cur): Cur {
    PutBlob(l.name, PutU8(l.index, PutOptU32(l.declared, PutOptU32(l.last, s))))
  }

  lemma LocalLaws()
    ensures Lawful(ReadLocal, PutLocal, FitsLocal, 7)
  {
    OptU32Laws();
    hide ReadU8, PutU8, ReadOptU32, PutOptU32, ReadString, PutBlob;
    forall l, s | FitsLocal(l) ensures ReadLocal(PutLocal(l, s)) == Got(l, s) { Primitives(); Strings(); }
    forall l: Local, s ensures |PutLocal(l, s).rest| >= 7 + |s.rest| { Lengths(); }
    forall l: Local, a, s ensures PutLocal(l, Join(a, s)) == Join(PutLocal(l, a), s) { Frames(); }
    hide ReadLocal, PutLocal;
  }

  ghost predicate FitsDebug(d: DebugInfo) {
    FitsOption(d.source, FitsString) && |d.lines| <= MAX_COUNT && FitsList(d.functions, FitsFunction) && FitsList(d.locals, FitsLocal)
  }

  function ReadDebug(s: Cur): (r: Read<DebugInfo>)
    ensures r.Got? ==> FitsDebug(r.v) && s == PutDebug(r.v, r.s)
  {
    OptionSound(DebugFlag, ReadString, PutBlob, FitsString, s);
    var (source, s) :- ReadOption(DebugFlag, ReadString, s);
    ListSound(8, 0, ReadLine, PutLine, Any, s);
    var (lines, s) :- ReadList(8, 0, ReadLine, s);
    ListSound(8, 0, ReadFunction, PutFunction, FitsFunction, s);
    var (functions, s) :- ReadList(8, 0, ReadFunction, s);
    ListSound(7, 0, ReadLocal, PutLocal, FitsLocal, s);
    var (locals, s) :- ReadList(7, 0, ReadLocal, s);
    Got(DebugInfo(source, lines, functions, locals), s)
  }

  function PutDebug(d: DebugInfo, s: Cur): Cur {
    PutOption(d.source, PutBlob, PutList(d.lines, PutLine, PutList(d.functions, PutFunction, PutList(d.locals, PutLocal, s))))
  }

  lemma DebugLaws()
    ensures Lawful(ReadDebug, PutDebug, FitsDebug, 0)
  {
    WordLaws();
    LineLaws();
    FunctionLaws();
    LocalLaws();
    hide ReadLine, PutLine, ReadFunction, PutFunction, ReadLocal, PutLocal, ReadString, PutBlob;
    forall d, s | FitsDebug(d) ensures ReadDebug(PutDebug(d, s)) == Got(d, s) {
      hide ReadOption, PutOption, ReadList, PutList;
      ListComplete(d.locals, 7, 0, ReadLocal, PutLocal, FitsLocal, s);
      var s1 := PutList(d.locals, PutLocal, s);
      ListComplete(d.functions, 8, 0, ReadFunction, PutFunction, FitsFunction, s1);
      var s2 := PutList(d.functions, PutFunction, s1);
      ListComplete(d.lines, 8, 0, ReadLine, PutLine, Any, s2);
      var s3 := PutList(d.lines, PutLine, s2);
      OptionComplete(d.source, DebugFlag, ReadString, PutBlob, FitsString, s3);
    }
    forall d: DebugInfo, s ensures |PutDebug(d, s).rest| >= |s.rest| {
      Lengths();
      ManyAtLeast(d.locals, PutLocal, 0, s);
      var s1 := PutList(d.locals, PutLocal, s);
      ManyAtLeast(d.functions, PutFunction, 0, s1);
      var s2 := PutList(d.functions, PutFunction, s1);
      ManyAtLeast(d.lines, PutLine, 0, s2);
    }
    forall d: DebugInfo, a, s ensures PutDebug(d, Join(a, s)) == Join(PutDebug(d, a), s) {
      hide PutOption, PutList;
      ListFrame(d.locals, PutLocal, a, s);
      var a1 := PutList(d.locals, PutLocal, a);
      ListFrame(d.functions, PutFunction, a1, s);
      var a2 := PutList(d.functions, PutFunction, a1);
      ListFrame(d.lines, PutLine, a2, s);
      OptionFrame(d.source, PutBlob, PutList(d.lines, PutLine, a2), s);
    }
    hide ReadDebug, PutDebug;
  }
}
