/** The freestanding decoder's sections, each against the full writer's bytes. */
module SlimSections {
  import opened Bytes
  import opened Wire
  import opened Lists
  import opened Programs
  import opened Sections
  import opened Ledger
  import opened SlimDecoder
  import opened Schemas

  /** Parts that debit only items look the same without the host budgets. */
  lemma ShadowPlain<T(!new)>(v: T, p: (T, Cur) -> Cur, w: T -> nat, s: Cur)
    requires Costs(p, w) && Framing(p)
    ensures Shadow(p(v, s)) == p(v, Shadow(s))
  {
    var h := Cur([], Budget(0, s.b.nodes, s.b.props, s.b.params));
    assert Join(Shadow(s), h).rest == s.rest;
    assert p(v, Join(Shadow(s), h)) == Join(p(v, Shadow(s)), h);
  }

  /** A section both decoders read the same way. */
  lemma Echo<T(!new)>(f: Cur -> Read<T>, p: (T, Cur) -> Cur, fits: T -> bool, min: nat, w: T -> nat)
    requires Lawful(f, p, fits, min) && Costs(p, w)
    ensures Mirrors(f, p, fits, Same)
  {
    forall v, s | fits(v) ensures f(Shadow(p(v, s))) == Got(v, Shadow(s)) {
      ShadowPlain(v, p, w, s);
    }
  }

  // ---------------------------------------------------------------- type map

  function SkipTop(s: Cur): Read<()> { SkipSchema(0, s) }

  function SkipOptSchema(s: Cur): Read<()> {
    var (_, s) :- ReadOption(BoolFlag, SkipTop, s);
    Got((), s)
  }

  /** Only the number of locals is kept. */
  function SlimTypeMap(s: Cur): Read<nat> {
    var (_, s) :- ReadBool(s);
    var (n, s) :- ReadCount(4, 12, s);
    if n > MAX_FRAME_LOCALS then Fail(LengthTooLarge(n)) else SlimTypeMapTail(n, s)
  }

  function SlimTypeMapTail(n: nat, s: Cur): Read<nat> {
    var (_, s) :- ReadMany(n, ReadValueType, s);
    var (_, s) :- ReadMany(n, SkipOptSchema, s);
    var (_, s) :- ReadBools(n, s);
    var (_, s) :- ReadBools(n, s);
    var (_, s) :- ReadList(6, 0, ReadOperand, s);
    Got(n, s)
  }

  lemma SchemaLaws()
    ensures Lawful(ReadTop, PutTop, FitsTop, 1)
  {
    OptSchemaLaws();
    forall t, s | FitsTop(t) ensures ReadTop(PutTop(t, s)) == Got(t, s) { ReadPutSchema(0, t, s); }
    forall t: TypeSchema, s ensures |PutTop(t, s).rest| >= 1 + |s.rest| { SchemaLoad(t, s); }
    forall t: TypeSchema, a, s ensures PutTop(t, Join(a, s)) == Join(PutTop(t, a), s) { SchemaFrame(t, a, s); }
    hide ReadTop, PutTop;
  }

  lemma OptSchemaMirrors()
    ensures Mirrors(SkipTop, PutTop, FitsTop, Nothing)
    ensures Mirrors(SkipOptSchema, PutOptSchema, FitsOptSchema, Nothing)
  {
    forall t, s | FitsTop(t) ensures SkipTop(Shadow(PutTop(t, s))) == Got((), Shadow(s)) {
      TreeCosts();
      SchemaLaws();
      hide ReadTop, PutTop;
      ShadowPlain(t, PutTop, SchemaItems, s);
      SkipPutSchema(0, t, Shadow(s));
    }
    hide SkipTop, PutTop, ReadOption, PutOption;
    forall o, s | FitsOptSchema(o) ensures SkipOptSchema(Shadow(PutOptSchema(o, s))) == Got((), Shadow(s)) {
      OptionMirror(o, BoolFlag, SkipTop, PutTop, FitsTop, Nothing, s);
    }
  }

  lemma ByteMirrors()
    ensures Mirrors(ReadValueType, PutValueType, Any<ValueType>, Same<ValueType>) && Mirrors(ReadOperand, PutOperand, Any, Same)
  {
    forall v: ValueType, s ensures ReadValueType(Shadow(PutValueType(v, s))) == Got(v, Shadow(s)) { ReadPutU8(v, Shadow(s)); }
    OperandLaws();
    Scalars();
    Echo(ReadOperand, PutOperand, Any, 6, Zero);
  }

  lemma BoolsMirror(bs: seq<bool>, s: Cur)
    requires |bs| <= MAX_COUNT
    ensures ReadBools(|bs|, Shadow(PutList(bs, PutBool, s))) == Got(bs, Shadow(s))
  {
    ReadPutBools(bs, Shadow(s));
    Scalars();
    ByteLaws();
    hide ReadBools, PutList;
    forall bs, s ensures PutList(bs, PutBool, s).b == s.b.(items := s.b.items + |bs|) { PlainList(bs, PutBool, s); }
    forall bs, a, s ensures PutList(bs, PutBool, Join(a, s)) == Join(PutList(bs, PutBool, a), s) { ListFrame(bs, PutBool, a, s); }
    ShadowPlain(bs, (bs, s) => PutList(bs, PutBool, s), bs => |bs|, s);
  }

  lemma LocalsMirror(m: TypeMap, s: Cur)
    requires FitsTypeMap(m)
    ensures ReadMany(|m.locals|, ReadValueType, Shadow(PutMany(m.locals, PutValueType, s))) == Got(m.locals, Shadow(s))
    ensures ReadMany(|m.schemas|, SkipOptSchema, Shadow(PutMany(m.schemas, PutOptSchema, s))).Got?
    ensures ReadMany(|m.schemas|, SkipOptSchema, Shadow(PutMany(m.schemas, PutOptSchema, s))).s == Shadow(s)
    ensures ReadList(6, 0, ReadOperand, Shadow(PutList(m.operands, PutOperand, s))) == Got(m.operands, Shadow(s))
  {
    ByteMirrors();
    OptSchemaMirrors();
    OperandLaws();
    hide ReadOperand, PutOperand, ReadValueType, PutValueType, SkipOptSchema, PutOptSchema, ReadMany, PutMany, ReadList, PutList, Shadow;
    ManyMirror(m.locals, ReadValueType, PutValueType, Any<ValueType>, Same<ValueType>, s);
    ManyMirror(m.schemas, SkipOptSchema, PutOptSchema, FitsOptSchema, Nothing, s);
    ListMirror(m.operands, 6, ReadOperand, PutOperand, Any, Same, s);
    MappedSame(m.locals);
    MappedSame(m.operands);
  }

  lemma TypeMapTailMirror(m: TypeMap, s: Cur)
    requires FitsTypeMap(m)
    ensures SlimTypeMapTail(|m.locals|, Shadow(PutTypeMapTail(m, s))) == Got(|m.locals|, Shadow(s))
  {
    hide ReadBools, ReadMany, PutMany, ReadList, PutList, Shadow;
    var t1 := PutList(m.operands, PutOperand, s);
    var t2 := PutList(m.optionals, PutBool, t1);
    var t3 := PutList(m.callables, PutBool, t2);
    LocalsMirror(m, PutMany(m.schemas, PutOptSchema, t3));
    LocalsMirror(m, t3);
    BoolsMirror(m.callables, t2);
    BoolsMirror(m.optionals, t1);
    LocalsMirror(m, s);
  }

  function LocalsOf(m: TypeMap): nat { |m.locals| }

  lemma TypeMapMirrors()
    ensures Mirrors(SlimTypeMap, PutTypeMap, FitsTypeMap, LocalsOf)
  {
    forall m, s | FitsTypeMap(m) ensures SlimTypeMap(Shadow(PutTypeMap(m, s))) == Got(LocalsOf(m), Shadow(s)) {
      TypeMapTailMirror(m, s);
      TypeMapLength(m, s);
      ByteLaws();
      Shadows();
      hide SlimTypeMapTail, PutTypeMapTail, ReadCount, PutCount, ReadBool, PutBool;
      var t := PutTypeMapTail(m, s);
      ReadPutCount(|m.locals|, 4, 12, Shadow(t));
      assert Shadow(PutBool(m.strict, PutCount(|m.locals|, t))) == PutBool(m.strict, PutCount(|m.locals|, Shadow(t))) by {
        Scalars();
        ShadowPlain(m.strict, PutBool, Zero, PutCount(|m.locals|, t));
      }
    }
  }

  // ---------------------------------------------------------------- debug information

  function SkipArg(s: Cur): Read<()> {
    var (_, s) :- SkipString(s);
    var (_, s) :- ReadU8(s);
    Got((), s)
  }

  function SkipFunction(s: Cur): Read<()> {
    var (_, s) :- SkipString(s);
    var (_, s) :- ReadList(5, 0, SkipArg, s);
    Got((), s)
  }

  function SkipLocal(s: Cur): Read<()> {
    var (_, s) :- SkipString(s);
    var (_, s) :- ReadU8(s);
    var (_, s) :- ReadOptU32(s);
    var (_, s) :- ReadOptU32(s);
    Got((), s)
  }

  /** Lines are skipped as one block of eight bytes each. */
  function SkipLines(s: Cur): Read<()> {
    var (n, s) :- ReadCount(8, 0, s);
    var (_, s) :- ReadExact(8 * n, s);
    Got((), s)
  }

  function SkipDebug(s: Cur): Read<()> {
    var (_, s) :- ReadOption(DebugFlag, SkipString, s);
    var (_, s) :- SkipLines(s);
    var (_, s) :- ReadList(8, 0, SkipFunction, s);
    var (_, s) :- ReadList(7, 0, SkipLocal, s);
    Got((), s)
  }

  lemma StringMirrors()
    ensures Mirrors(SkipString, PutBlob, FitsString, Nothing)
    ensures Mirrors(ReadU8, PutU8, Any<u8>, Same<u8>)
  {
    forall x, s | FitsString(x) ensures SkipString(Shadow(PutBlob(x, s))) == Got((), Shadow(s)) {
      SkipPutString(x, Shadow(s));
      Shadows();
    }
    forall v: u8, s ensures ReadU8(Shadow(PutU8(v, s))) == Got(v, Shadow(s)) { ReadPutU8(v, Shadow(s)); }
  }

  lemma FunctionMirrors()
    ensures Mirrors(SkipArg, PutArg, FitsArg, Nothing) && Mirrors(SkipFunction, PutFunction, FitsFunction, Nothing)
  {
    StringMirrors();
    hide SkipString, PutBlob, ReadU8, PutU8, Shadow;
    forall x, s | FitsArg(x) ensures SkipArg(Shadow(PutArg(x, s))) == Got((), Shadow(s)) {
      assert SkipString(Shadow(PutBlob(x.name, PutU8(x.position, s)))) == Got((), Shadow(PutU8(x.position, s)));
      assert ReadU8(Shadow(PutU8(x.position, s))) == Got(x.position, Shadow(s));
    }
    hide SkipArg, ReadList, PutList;
    forall f, s | FitsFunction(f) ensures SkipFunction(Shadow(PutFunction(f, s))) == Got((), Shadow(s)) {
      ArgLaws();
      hide PutArg;
      ListMirror(f.args, 5, SkipArg, PutArg, FitsArg, Nothing, s);
      assert SkipString(Shadow(PutBlob(f.name, PutList(f.args, PutArg, s)))).Got?;
    }
  }

  lemma LocalMirrors()
    ensures Mirrors(SkipLocal, PutLocal, FitsLocal, Nothing)
  {
    StringMirrors();
    OptU32Laws();
    Echo(ReadOptU32, PutOptU32, Any, 1, Zero);
    hide SkipString, PutBlob, ReadU8, PutU8, ReadOptU32, PutOptU32, Shadow;
    forall l, s | FitsLocal(l) ensures SkipLocal(Shadow(PutLocal(l, s))) == Got((), Shadow(s)) {
      var t1 := PutOptU32(l.last, s);
      var t2 := PutOptU32(l.declared, t1);
      assert SkipString(Shadow(PutBlob(l.name, PutU8(l.index, t2)))).Got?;
    }
  }

  lemma {:induction false} LinesLength(ls: seq<Line>, s: Cur)
    ensures |PutMany(ls, PutLine, s).rest| == 8 * |ls| + |s.rest| && PutMany(ls, PutLine, s).b == s.b
    ensures PutMany(ls, PutLine, s).rest[8 * |ls|..] == s.rest
  {
    if ls != [] {
      LinesLength(ls[1..], s);
      var t := PutMany(ls[1..], PutLine, s);
      assert PutLine(ls[0], t).rest[8..] == t.rest;
      assert PutLine(ls[0], t).rest[8 * |ls|..] == PutLine(ls[0], t).rest[8..][8 * |ls[1..]|..];
    }
  }

  lemma LinesMirror(ls: seq<Line>, s: Cur)
    requires |ls| <= MAX_COUNT
    ensures SkipLines(Shadow(PutList(ls, PutLine, s))) == Got((), Shadow(s))
  {
    var t := PutMany(ls, PutLine, s);
    LinesLength(ls, s);
    assert Shadow(PutCount(|ls|, t)) == PutCount(|ls|, Shadow(t)) by { Shadows(); }
    ReadPutCount(|ls|, 8, 0, Shadow(t));
    hide ReadCount, PutCount;
  }

  lemma DebugMirrors()
    ensures Mirrors(SkipDebug, PutDebug, FitsDebug, Nothing)
  {
    StringMirrors();
    FunctionMirrors();
    LocalMirrors();
    FunctionLaws();
    LocalLaws();
    hide SkipString, PutBlob, SkipFunction, PutFunction, SkipLocal, PutLocal, SkipLines, ReadOption, PutOption, ReadList, PutList, Shadow;
    forall d, s | FitsDebug(d) ensures SkipDebug(Shadow(PutDebug(d, s))) == Got((), Shadow(s)) {
      var t1 := PutList(d.locals, PutLocal, s);
      var t2 := PutList(d.functions, PutFunction, t1);
      var t3 := PutList(d.lines, PutLine, t2);
      OptionMirror(d.source, DebugFlag, SkipString, PutBlob, FitsString, Nothing, t3);
      LinesMirror(d.lines, t2);
      ListMirror(d.functions, 8, SkipFunction, PutFunction, FitsFunction, Nothing, t1);
      ListMirror(d.locals, 7, SkipLocal, PutLocal, FitsLocal, Nothing, s);
    }
  }
}
