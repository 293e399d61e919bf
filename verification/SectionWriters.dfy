/** The section writers, as the loops over one buffer that they are, proved against the images of their values. */
module SectionWriters {
  import opened Bytes
  import opened Seqs
  import opened Wire
  import opened Lists
  import opened Programs
  import opened Sections
  import opened CallableSections
  import opened HostTypes
  import opened HostWire
  import opened HostInjective
  import opened ImportLimits
  import opened ImportSections
  import opened Writers
  import opened TreeWriters
  import opened SchemaOrder
  import opened Sorting
  import opened WireOrder
  import opened Assoc
  import opened Canonical
  import ImportChecks
  import Schemas

  lemma PutsMany<T>(xs: seq<T>, p: (T, Cur) -> Cur, i: nat, s: Cur)
    requires i < |xs|
    ensures PutMany(xs[i..], p, s) == p(xs[i], PutMany(xs[i + 1..], p, s))
  {
    assert xs[i..][1..] == xs[i + 1..];
  }

  lemma PutsNothing<T>(p: (T, Cur) -> Cur, s: Cur)
    ensures PutMany([], p, s) == s
  {
  }

  // ---------------------------------------------------------------- small elements

  method WriteBool(w: Writer, v: bool, ghost s: Cur)
    modifies w
    ensures Grew(old(w.out), w.out, PutBool(v, s), s)
  {
    hide PutU8;
    w.PushU8(if v then 1 else 0, s);
  }

  method WriteOptSchema(w: Writer, v: Option<Schemas.TypeSchema>, ghost s: Cur) returns (r: Result<()>)
    modifies w
    ensures r.Ok? <==> (v.Some? ==> WritableSchema(v.value))
    ensures r.Ok? ==> Grew(old(w.out), w.out, PutOptSchema(LayOpt(v), s), s)
  {
    hide PutU8, Schemas.PutSchema, LaySchema;
    if v.Some? {
      w.PushU8(1, PutTop(LaySchema(v.value), s));
      var _ :- WriteSchema(w, v.value, s);
    } else {
      w.PushU8(0, s);
    }
    r := Ok(());
  }

  method WriteOptU32(w: Writer, v: Option<u32>, ghost s: Cur)
    modifies w
    ensures Grew(old(w.out), w.out, PutOptU32(v, s), s)
  {
    hide PutU8, PutU32;
    if v.Some? {
      w.PushU8(1, PutU32(v.value, s));
      w.PushU32(v.value, s);
    } else {
      w.PushU8(0, s);
    }
  }

  method WriteSelf(w: Writer, v: Option<u16>, ghost s: Cur)
    modifies w
    ensures Grew(old(w.out), w.out, PutSelf(v, s), s)
  {
    hide PutU8, PutU16;
    if v.Some? {
      w.PushU8(1, PutU16(v.value, s));
      w.PushU16(v.value, s);
    } else {
      w.PushU8(0, s);
    }
  }

  predicate WritableOpt(o: Option<Schemas.TypeSchema>) { o.Some? ==> WritableSchema(o.value) }

  // ---------------------------------------------------------------- type map

  method WriteOperand(w: Writer, v: Operand, ghost s: Cur)
    modifies w
    ensures Grew(old(w.out), w.out, PutOperand(v, s), s)
  {
    hide PutU8, PutU32;
    w.PushU32(v.offset, PutU8(v.lhs, PutU8(v.rhs, s)));
    w.PushU8(v.lhs, PutU8(v.rhs, s));
    w.PushU8(v.rhs, s);
  }

  /** The operand entries of a hash map, sorted by offset. */
  method WriteOperands(w: Writer, v: seq<Operand>, ghost s: Cur) returns (r: Result<()>)
    modifies w
    ensures r.Ok? <==> Short(v)
    ensures r.Ok? ==> Grew(old(w.out), w.out, PutList(LayOperands(v), PutOperand, s), s)
  {
    hide PutCount, PutMany, PutOperand, SortBy;
    var entries := SortBy(Offset, Below, v);
    var _ :- w.PushCount(|entries|, PutMany(entries, PutOperand, s));
    for i := 0 to |entries|
      invariant Grew(old(w.out), w.out, PutList(entries, PutOperand, s), PutMany(entries[i..], PutOperand, s))
    {
      PutsMany(entries, PutOperand, i, s);
      WriteOperand(w, entries[i], PutMany(entries[i + 1..], PutOperand, s));
    }
    assert entries[|entries|..] == [];
    PutsNothing(PutOperand, s);
    r := Ok(());
  }

  method WriteBools(w: Writer, v: seq<bool>, ghost s: Cur) returns (r: Result<()>)
    modifies w
    ensures r.Ok? <==> Short(v)
    ensures r.Ok? ==> Grew(old(w.out), w.out, PutList(v, PutBool, s), s)
  {
    hide PutCount, PutMany, PutBool;
    var _ :- w.PushCount(|v|, PutMany(v, PutBool, s));
    for i := 0 to |v|
      invariant Grew(old(w.out), w.out, PutList(v, PutBool, s), PutMany(v[i..], PutBool, s))
    {
      PutsMany(v, PutBool, i, s);
      WriteBool(w, v[i], PutMany(v[i + 1..], PutBool, s));
    }
    assert v[|v|..] == [];
    PutsNothing(PutBool, s);
    r := Ok(());
  }

  predicate WritableTypeMap(m: TypeMap) {
    Short(m.locals) && (forall o <- m.schemas :: WritableOpt(o)) && Short(m.callables) && Short(m.optionals) && Short(m.operands)
  }

  method WriteLocalTypes(w: Writer, v: seq<ValueType>, ghost s: Cur)
    modifies w
    ensures Grew(old(w.out), w.out, PutMany(v, PutValueType, s), s)
  {
    hide PutMany, PutU8;
    assert v[0..] == v;
    for i := 0 to |v|
      invariant Grew(old(w.out), w.out, PutMany(v, PutValueType, s), PutMany(v[i..], PutValueType, s))
    {
      PutsMany(v, PutValueType, i, s);
      w.PushU8(v[i], PutMany(v[i + 1..], PutValueType, s));
    }
    assert v[|v|..] == [];
    PutsNothing(PutValueType, s);
  }

  method WriteLocalSchemas(w: Writer, v: seq<Option<Schemas.TypeSchema>>, ghost s: Cur) returns (r: Result<()>)
    modifies w
    ensures r.Ok? <==> forall o <- v :: WritableOpt(o)
    ensures r.Ok? ==> Grew(old(w.out), w.out, PutMany(Mapped(LayOpt, v), PutOptSchema, s), s)
  {
    hide PutMany, PutOptSchema, LayOpt;
    ghost var ls := Mapped(LayOpt, v);
    assert ls[0..] == ls;
    for i := 0 to |v|
      invariant Grew(old(w.out), w.out, PutMany(ls, PutOptSchema, s), PutMany(ls[i..], PutOptSchema, s))
      invariant forall k | 0 <= k < i :: WritableOpt(v[k])
    {
      assert v[i] in v;
      PutsMany(ls, PutOptSchema, i, s);
      var _ :- WriteOptSchema(w, v[i], PutMany(ls[i + 1..], PutOptSchema, s));
    }
    assert ls[|ls|..] == [];
    PutsNothing(PutOptSchema, s);
    r := Ok(());
  }

  /** `write_type_map`, after its flag. */
  method WriteTypeMap(w: Writer, v: TypeMap, ghost s: Cur) returns (r: Result<()>)
    modifies w
    ensures r.Ok? <==> WritableTypeMap(v)
    ensures r.Ok? ==> Grew(old(w.out), w.out, PutTypeMap(LayTypeMap(v), s), s)
  {
    hide PutBool, PutCount, PutMany, PutList, LayOperands, Mapped;
    ghost var t1 := PutList(LayOperands(v.operands), PutOperand, s);
    ghost var t2 := PutList(v.optionals, PutBool, t1);
    ghost var t3 := PutList(v.callables, PutBool, t2);
    ghost var t4 := PutMany(Mapped(LayOpt, v.schemas), PutOptSchema, t3);
    WriteBool(w, v.strict, PutCount(|v.locals|, PutMany(v.locals, PutValueType, t4)));
    var _ :- w.PushCount(|v.locals|, PutMany(v.locals, PutValueType, t4));
    WriteLocalTypes(w, v.locals, t4);
    var _ :- WriteLocalSchemas(w, v.schemas, t3);
    var _ :- WriteBools(w, v.callables, t2);
    var _ :- WriteBools(w, v.optionals, t1);
    var _ :- WriteOperands(w, v.operands, s);
    r := Ok(());
  }

  // ---------------------------------------------------------------- debug information

  method WriteLine(w: Writer, v: Line, ghost s: Cur)
    modifies w
    ensures Grew(old(w.out), w.out, PutLine(v, s), s)
  {
    hide PutU32;
    w.PushU32(v.offset, PutU32(v.line, s));
    w.PushU32(v.line, s);
  }

  method WriteLines(w: Writer, v: seq<Line>, ghost s: Cur) returns (r: Result<()>)
    modifies w
    ensures r.Ok? <==> Short(v)
    ensures r.Ok? ==> Grew(old(w.out), w.out, PutList(v, PutLine, s), s)
  {
    hide PutCount, PutMany, PutLine;
    var _ :- w.PushCount(|v|, PutMany(v, PutLine, s));
    for i := 0 to |v|
      invariant Grew(old(w.out), w.out, PutList(v, PutLine, s), PutMany(v[i..], PutLine, s))
    {
      PutsMany(v, PutLine, i, s);
      WriteLine(w, v[i], PutMany(v[i + 1..], PutLine, s));
    }
    assert v[|v|..] == [];
    PutsNothing(PutLine, s);
    r := Ok(());
  }

  predicate WritableArg(a: Arg) { Short(a.name) }
  predicate WritableFunction(f: DebugFunction) { Short(f.name) && Short(f.args) && forall a <- f.args :: WritableArg(a) }
  predicate WritableLocal(l: Local) { Short(l.name) }

  predicate WritableDebug(d: DebugInfo) {
    && (d.source.Some? ==> Short(d.source.value)) && Short(d.lines)
    && Short(d.functions) && (forall f <- d.functions :: WritableFunction(f))
    && Short(d.locals) && (forall l <- d.locals :: WritableLocal(l))
  }

  method WriteArg(w: Writer, v: Arg, ghost s: Cur) returns (r: Result<()>)
    modifies w
    ensures r.Ok? <==> WritableArg(v)
    ensures r.Ok? ==> Grew(old(w.out), w.out, PutArg(v, s), s)
  {
    hide PutBlob, PutU8;
    var _ :- w.PushBlob(v.name, PutU8(v.position, s));
    w.PushU8(v.position, s);
    r := Ok(());
  }

  method WriteArgs(w: Writer, v: seq<Arg>, ghost s: Cur) returns (r: Result<()>)
    modifies w
    ensures r.Ok? <==> Short(v) && forall x <- v :: WritableArg(x)
    ensures r.Ok? ==> Grew(old(w.out), w.out, PutList(v, PutArg, s), s)
  {
    hide PutCount, PutMany, PutArg;
    var _ :- w.PushCount(|v|, PutMany(v, PutArg, s));
    for i := 0 to |v|
      invariant Grew(old(w.out), w.out, PutList(v, PutArg, s), PutMany(v[i..], PutArg, s))
      invariant forall k | 0 <= k < i :: WritableArg(v[k])
    {
      assert v[i] in v;
      PutsMany(v, PutArg, i, s);
      var _ :- WriteArg(w, v[i], PutMany(v[i + 1..], PutArg, s));
    }
    assert v[|v|..] == [];
    PutsNothing(PutArg, s);
    r := Ok(());
  }

  method WriteFunction(w: Writer, v: DebugFunction, ghost s: Cur) returns (r: Result<()>)
    modifies w
    ensures r.Ok? <==> WritableFunction(v)
    ensures r.Ok? ==> Grew(old(w.out), w.out, PutFunction(v, s), s)
  {
    hide PutBlob, PutList;
    var _ :- w.PushBlob(v.name, PutList(v.args, PutArg, s));
    var _ :- WriteArgs(w, v.args, s);
    r := Ok(());
  }

  method WriteFunctions(w: Writer, v: seq<DebugFunction>, ghost s: Cur) returns (r: Result<()>)
    modifies w
    ensures r.Ok? <==> Short(v) && forall x <- v :: WritableFunction(x)
    ensures r.Ok? ==> Grew(old(w.out), w.out, PutList(v, PutFunction, s), s)
  {
    hide PutCount, PutMany, PutFunction;
    var _ :- w.PushCount(|v|, PutMany(v, PutFunction, s));
    for i := 0 to |v|
      invariant Grew(old(w.out), w.out, PutList(v, PutFunction, s), PutMany(v[i..], PutFunction, s))
      invariant forall k | 0 <= k < i :: WritableFunction(v[k])
    {
      assert v[i] in v;
      PutsMany(v, PutFunction, i, s);
      var _ :- WriteFunction(w, v[i], PutMany(v[i + 1..], PutFunction, s));
    }
    assert v[|v|..] == [];
    PutsNothing(PutFunction, s);
    r := Ok(());
  }

  method WriteLocal(w: Writer, v: Local, ghost s: Cur) returns (r: Result<()>)
    modifies w
    ensures r.Ok? <==> WritableLocal(v)
    ensures r.Ok? ==> Grew(old(w.out), w.out, PutLocal(v, s), s)
  {
    hide PutBlob, PutU8, PutOptU32;
    var _ :- w.PushBlob(v.name, PutU8(v.index, PutOptU32(v.declared, PutOptU32(v.last, s))));
    w.PushU8(v.index, PutOptU32(v.declared, PutOptU32(v.last, s)));
    WriteOptU32(w, v.declared, PutOptU32(v.last, s));
    WriteOptU32(w, v.last, s);
    r := Ok(());
  }

  method WriteLocals(w: Writer, v: seq<Local>, ghost s: Cur) returns (r: Result<()>)
    modifies w
    ensures r.Ok? <==> Short(v) && forall x <- v :: WritableLocal(x)
    ensures r.Ok? ==> Grew(old(w.out), w.out, PutList(v, PutLocal, s), s)
  {
    hide PutCount, PutMany, PutLocal;
    var _ :- w.PushCount(|v|, PutMany(v, PutLocal, s));
    for i := 0 to |v|
      invariant Grew(old(w.out), w.out, PutList(v, PutLocal, s), PutMany(v[i..], PutLocal, s))
      invariant forall k | 0 <= k < i :: WritableLocal(v[k])
    {
      assert v[i] in v;
      PutsMany(v, PutLocal, i, s);
      var _ :- WriteLocal(w, v[i], PutMany(v[i + 1..], PutLocal, s));
    }
    assert v[|v|..] == [];
    PutsNothing(PutLocal, s);
    r := Ok(());
  }

  /** `write_debug_info`, after its flag. */
  method WriteDebug(w: Writer, v: DebugInfo, ghost s: Cur) returns (r: Result<()>)
    modifies w
    ensures r.Ok? <==> WritableDebug(v)
    ensures r.Ok? ==> Grew(old(w.out), w.out, PutDebug(v, s), s)
  {
    hide PutU8, PutBlob, PutList;
    ghost var t1 := PutList(v.locals, PutLocal, s);
    ghost var t2 := PutList(v.functions, PutFunction, t1);
    ghost var t3 := PutList(v.lines, PutLine, t2);
    if v.source.Some? {
      w.PushU8(1, PutBlob(v.source.value, t3));
      var _ :- w.PushBlob(v.source.value, t3);
    } else {
      w.PushU8(0, t3);
    }
    var _ :- WriteLines(w, v.lines, t2);
    var _ :- WriteFunctions(w, v.functions, t1);
    var _ :- WriteLocals(w, v.locals, s);
    r := Ok(());
  }

  // ---------------------------------------------------------------- callables

  method WriteScriptFunction(w: Writer, v: ScriptFunction, ghost s: Cur)
    modifies w
    ensures Grew(old(w.out), w.out, PutScriptFunction(v, s), s)
  {
    hide PutU32;
    w.PushU32(v.entry, PutU32(v.end, s));
    w.PushU32(v.end, s);
  }

  method WriteScriptFunctions(w: Writer, v: seq<ScriptFunction>, ghost s: Cur) returns (r: Result<()>)
    modifies w
    ensures r.Ok? <==> Short(v)
    ensures r.Ok? ==> Grew(old(w.out), w.out, PutList(v, PutScriptFunction, s), s)
  {
    hide PutCount, PutMany, PutScriptFunction;
    var _ :- w.PushCount(|v|, PutMany(v, PutScriptFunction, s));
    for i := 0 to |v|
      invariant Grew(old(w.out), w.out, PutList(v, PutScriptFunction, s), PutMany(v[i..], PutScriptFunction, s))
    {
      PutsMany(v, PutScriptFunction, i, s);
      WriteScriptFunction(w, v[i], PutMany(v[i + 1..], PutScriptFunction, s));
    }
    assert v[|v|..] == [];
    PutsNothing(PutScriptFunction, s);
    r := Ok(());
  }

  method WriteRegion(w: Writer, v: Region, ghost s: Cur)
    modifies w
    ensures Grew(old(w.out), w.out, PutRegion(v, s), s)
  {
    hide PutU32, PutOptU32;
    w.PushU32(v.start, PutU32(v.end, PutOptU32(v.prototype, s)));
    w.PushU32(v.end, PutOptU32(v.prototype, s));
    WriteOptU32(w, v.prototype, s);
  }

  method WriteRegions(w: Writer, v: seq<Region>, ghost s: Cur) returns (r: Result<()>)
    modifies w
    ensures r.Ok? <==> Short(v)
    ensures r.Ok? ==> Grew(old(w.out), w.out, PutList(v, PutRegion, s), s)
  {
    hide PutCount, PutMany, PutRegion;
    var _ :- w.PushCount(|v|, PutMany(v, PutRegion, s));
    for i := 0 to |v|
      invariant Grew(old(w.out), w.out, PutList(v, PutRegion, s), PutMany(v[i..], PutRegion, s))
    {
      PutsMany(v, PutRegion, i, s);
      WriteRegion(w, v[i], PutMany(v[i + 1..], PutRegion, s));
    }
    assert v[|v|..] == [];
    PutsNothing(PutRegion, s);
    r := Ok(());
  }

  method WriteBinding(w: Writer, v: Binding, ghost s: Cur)
    modifies w
    ensures Grew(old(w.out), w.out, PutBinding(v, s), s)
  {
    hide PutU16, PutU32;
    w.PushU16(v.slot, PutU32(v.prototype, s));
    w.PushU32(v.prototype, s);
  }

  method WriteBindings(w: Writer, v: seq<Binding>, ghost s: Cur) returns (r: Result<()>)
    modifies w
    ensures r.Ok? <==> Short(v)
    ensures r.Ok? ==> Grew(old(w.out), w.out, PutList(v, PutBinding, s), s)
  {
    hide PutCount, PutMany, PutBinding;
    var _ :- w.PushCount(|v|, PutMany(v, PutBinding, s));
    for i := 0 to |v|
      invariant Grew(old(w.out), w.out, PutList(v, PutBinding, s), PutMany(v[i..], PutBinding, s))
    {
      PutsMany(v, PutBinding, i, s);
      WriteBinding(w, v[i], PutMany(v[i + 1..], PutBinding, s));
    }
    assert v[|v|..] == [];
    PutsNothing(PutBinding, s);
    r := Ok(());
  }

  predicate WritableExport(e: Export) { Short(e.name) }

  method WriteExport(w: Writer, v: Export, ghost s: Cur) returns (r: Result<()>)
    modifies w
    ensures r.Ok? <==> WritableExport(v)
    ensures r.Ok? ==> Grew(old(w.out), w.out, PutExport(v, s), s)
  {
    hide PutBlob, PutU16;
    var _ :- w.PushBlob(v.name, PutU16(v.slot, s));
    w.PushU16(v.slot, s);
    r := Ok(());
  }

  method WriteExports(w: Writer, v: seq<Export>, ghost s: Cur) returns (r: Result<()>)
    modifies w
    ensures r.Ok? <==> Short(v) && forall x <- v :: WritableExport(x)
    ensures r.Ok? ==> Grew(old(w.out), w.out, PutList(v, PutExport, s), s)
  {
    hide PutCount, PutMany, PutExport;
    var _ :- w.PushCount(|v|, PutMany(v, PutExport, s));
    for i := 0 to |v|
      invariant Grew(old(w.out), w.out, PutList(v, PutExport, s), PutMany(v[i..], PutExport, s))
      invariant forall k | 0 <= k < i :: WritableExport(v[k])
    {
      assert v[i] in v;
      PutsMany(v, PutExport, i, s);
      var _ :- WriteExport(w, v[i], PutMany(v[i + 1..], PutExport, s));
    }
    assert v[|v|..] == [];
    PutsNothing(PutExport, s);
    r := Ok(());
  }

  method WriteTarget(w: Writer, v: Target, ghost s: Cur)
    modifies w
    ensures Grew(old(w.out), w.out, PutTarget(v, s), s)
  {
    hide PutU8, PutU32;
    match v {
      case Script(id) =>
        w.PushU8(0, PutU32(id, s));
        w.PushU32(id, s);
      case Host(index) =>
        w.PushU8(1, PutU32(index, s));
        w.PushU32(index, s);
    }
  }

  method WriteSlots(w: Writer, v: seq<u16>, ghost s: Cur) returns (r: Result<()>)
    modifies w
    ensures r.Ok? <==> Short(v)
    ensures r.Ok? ==> Grew(old(w.out), w.out, PutSlots(v, s), s)
  {
    hide PutCount, PutMany, PutU16;
    var _ :- w.PushCount(|v|, PutMany(v, PutU16, s));
    for i := 0 to |v|
      invariant Grew(old(w.out), w.out, PutSlots(v, s), PutMany(v[i..], PutU16, s))
    {
      PutsMany(v, PutU16, i, s);
      w.PushU16(v[i], PutMany(v[i + 1..], PutU16, s));
    }
    assert v[|v|..] == [];
    PutsNothing(PutU16, s);
    r := Ok(());
  }

  method WriteModes(w: Writer, v: seq<CaptureMode>, ghost s: Cur) returns (r: Result<()>)
    modifies w
    ensures r.Ok? <==> Short(v)
    ensures r.Ok? ==> Grew(old(w.out), w.out, PutModes(v, s), s)
  {
    hide PutCount, PutMany, PutU8;
    var _ :- w.PushCount(|v|, PutMany(v, PutMode, s));
    for i := 0 to |v|
      invariant Grew(old(w.out), w.out, PutModes(v, s), PutMany(v[i..], PutMode, s))
    {
      PutsMany(v, PutMode, i, s);
      w.PushU8(v[i], PutMany(v[i + 1..], PutMode, s));
    }
    assert v[|v|..] == [];
    PutsNothing(PutMode, s);
    r := Ok(());
  }

  predicate WritablePrototype(p: Prototype) {
    p.frameLocals < 0x1_0000_0000 && Short(p.params) && Short(p.sources) && Short(p.captures) && Short(p.modes) && WritableOpt(p.schema)
  }

  method WritePrototype(w: Writer, v: Prototype, ghost s: Cur) returns (r: Result<()>)
    modifies w
    ensures r.Ok? <==> WritablePrototype(v)
    ensures r.Ok? ==> Grew(old(w.out), w.out, PutPrototype(LayPrototype(v), s), s)
  {
    hide PutU8, PutTarget, PutCount, PutSlots, PutModes, PutSelf, PutOptSchema, LayOpt;
    ghost var t1 := PutOptSchema(LayOpt(v.schema), s);
    ghost var t2 := PutModes(v.modes, PutSelf(v.self, t1));
    ghost var t3 := PutSlots(v.captures, t2);
    ghost var t4 := PutSlots(v.sources, t3);
    ghost var t5 := PutCount(v.frameLocals, PutSlots(v.params, t4));
    w.PushU8(v.kind, PutTarget(v.target, PutU8(v.arity, t5)));
    WriteTarget(w, v.target, PutU8(v.arity, t5));
    w.PushU8(v.arity, t5);
    var _ :- w.PushCount(v.frameLocals, PutSlots(v.params, t4));
    var _ :- WriteSlots(w, v.params, t4);
    var _ :- WriteSlots(w, v.sources, t3);
    var _ :- WriteSlots(w, v.captures, t2);
    var _ :- WriteModes(w, v.modes, PutSelf(v.self, t1));
    WriteSelf(w, v.self, t1);
    var _ :- WriteOptSchema(w, v.schema, s);
    r := Ok(());
  }

  method WritePrototypes(w: Writer, v: seq<Prototype>, ghost s: Cur) returns (r: Result<()>)
    modifies w
    ensures r.Ok? <==> Short(v) && forall x <- v :: WritablePrototype(x)
    ensures r.Ok? ==> Grew(old(w.out), w.out, PutList(Mapped(LayPrototype, v), PutPrototype, s), s)
  {
    hide PutCount, PutMany, PutPrototype, LayPrototype;
    ghost var ls := Mapped(LayPrototype, v);
    var _ :- w.PushCount(|v|, PutMany(ls, PutPrototype, s));
    for i := 0 to |v|
      invariant Grew(old(w.out), w.out, PutList(ls, PutPrototype, s), PutMany(ls[i..], PutPrototype, s))
      invariant forall k | 0 <= k < i :: WritablePrototype(v[k])
    {
      assert v[i] in v;
      PutsMany(ls, PutPrototype, i, s);
      var _ :- WritePrototype(w, v[i], PutMany(ls[i + 1..], PutPrototype, s));
    }
    assert ls[|ls|..] == [];
    PutsNothing(PutPrototype, s);
    r := Ok(());
  }

  predicate WritableCallables(c: Callables) {
    && Short(c.functions) && Short(c.prototypes) && (forall p <- c.prototypes :: WritablePrototype(p))
    && Short(c.regions) && Short(c.bindings) && Short(c.exports) && (forall e <- c.exports :: WritableExport(e))
  }

  /** `write_callable_metadata`. */
  method WriteCallables(w: Writer, v: Callables, ghost s: Cur) returns (r: Result<()>)
    modifies w
    ensures r.Ok? <==> WritableCallables(v)
    ensures r.Ok? ==> Grew(old(w.out), w.out, PutCallables(LayCallables(v), s), s)
  {
    hide PutList, Mapped;
    ghost var t1 := PutList(v.exports, PutExport, s);
    ghost var t2 := PutList(v.bindings, PutBinding, t1);
    ghost var t3 := PutList(v.regions, PutRegion, t2);
    ghost var t4 := PutList(Mapped(LayPrototype, v.prototypes), PutPrototype, t3);
    var _ :- WriteScriptFunctions(w, v.functions, t4);
    var _ :- WritePrototypes(w, v.prototypes, t3);
    var _ :- WriteRegions(w, v.regions, t2);
    var _ :- WriteBindings(w, v.bindings, t1);
    var _ :- WriteExports(w, v.exports, s);
    r := Ok(());
  }

  // ---------------------------------------------------------------- declarations

  predicate WritableName(x: Str) { Short(x) }
  predicate WritableDecl(d: Decl) { Short(d.name) && Short(d.params) && (forall x <- d.params :: WritableName(x)) && WritableSchema(d.body) }

  method WriteNames(w: Writer, v: seq<Str>, ghost s: Cur) returns (r: Result<()>)
    modifies w
    ensures r.Ok? <==> Short(v) && forall x <- v :: WritableName(x)
    ensures r.Ok? ==> Grew(old(w.out), w.out, PutList(v, PutBlob, s), s)
  {
    hide PutCount, PutMany, PutBlob;
    var _ :- w.PushCount(|v|, PutMany(v, PutBlob, s));
    for i := 0 to |v|
      invariant Grew(old(w.out), w.out, PutList(v, PutBlob, s), PutMany(v[i..], PutBlob, s))
      invariant forall k | 0 <= k < i :: WritableName(v[k])
    {
      assert v[i] in v;
      PutsMany(v, PutBlob, i, s);
      var _ :- w.PushBlob(v[i], PutMany(v[i + 1..], PutBlob, s));
    }
    assert v[|v|..] == [];
    PutsNothing(PutBlob, s);
    r := Ok(());
  }

  method WriteDecl(w: Writer, v: Decl, ghost s: Cur) returns (r: Result<()>)
    modifies w
    ensures r.Ok? <==> WritableDecl(v)
    ensures r.Ok? ==> Grew(old(w.out), w.out, PutDecl(LayDecl(v), s), s)
  {
    hide PutBlob, PutList, Schemas.PutSchema, LaySchema;
    ghost var t := PutTop(LaySchema(v.body), s);
    var _ :- w.PushBlob(v.name, PutList(v.params, PutBlob, t));
    var _ :- WriteNames(w, v.params, t);
    var _ :- WriteSchema(w, v.body, s);
    r := Ok(());
  }

  /** `write_named_struct_decls`: a hash map's values, sorted by name. */
  method WriteDecls(w: Writer, v: seq<Decl>, ghost s: Cur) returns (r: Result<()>)
    modifies w
    ensures r.Ok? <==> Short(v) && forall x <- v :: WritableDecl(x)
    ensures r.Ok? ==> Grew(old(w.out), w.out, PutList(LayDecls(v), PutDecl, s), s)
  {
    hide PutCount, PutMany, PutDecl, Sort, LayDecl;
    var entries := Sort(DeclName, v);
    DeclsSorted(v);
    ghost var ls := Mapped(LayDecl, entries);
    var _ :- w.PushCount(|entries|, PutMany(ls, PutDecl, s));
    for i := 0 to |entries|
      invariant Grew(old(w.out), w.out, PutList(ls, PutDecl, s), PutMany(ls[i..], PutDecl, s))
      invariant forall k | 0 <= k < i :: WritableDecl(entries[k])
    {
      Member(entries, v, entries[i]);
      PutsMany(ls, PutDecl, i, s);
      var _ :- WriteDecl(w, entries[i], PutMany(ls[i + 1..], PutDecl, s));
    }
    forall d <- v ensures WritableDecl(d) { Member(v, entries, d); }
    assert ls[|ls|..] == [];
    PutsNothing(PutDecl, s);
    r := Ok(());
  }

  // ---------------------------------------------------------------- imports

  method WriteParam(w: Writer, v: ImportParam, ghost s: Cur) returns (r: Result<()>)
    modifies w
    ensures r.Ok? <==> SizedParam(v) && DepthOf(v.ty) <= MAX_HOST_DEPTH
    ensures r.Ok? ==> Grew(old(w.out), w.out, PutParam(v, s), s)
  {
    hide PutBlob, PutHost, PutU8;
    var _ :- w.PushBlob(v.name, PutHost(v.ty, PutPassing(v.passing, s)));
    var _ :- WriteHost(w, v.ty, 0, PutPassing(v.passing, s));
    w.PushU8(PassingTag(v.passing), s);
    r := Ok(());
  }

  predicate WritableParam(p: ImportParam) { SizedParam(p) && DepthOf(p.ty) <= MAX_HOST_DEPTH }

  method WriteParams(w: Writer, v: seq<ImportParam>, ghost s: Cur) returns (r: Result<()>)
    modifies w
    ensures r.Ok? <==> forall p <- v :: WritableParam(p)
    ensures r.Ok? ==> Grew(old(w.out), w.out, PutMany(v, PutParam, s), s)
  {
    hide PutMany, PutParam;
    assert v[0..] == v;
    for i := 0 to |v|
      invariant Grew(old(w.out), w.out, PutMany(v, PutParam, s), PutMany(v[i..], PutParam, s))
      invariant forall k | 0 <= k < i :: WritableParam(v[k])
    {
      assert v[i] in v;
      PutsMany(v, PutParam, i, s);
      var _ :- WriteParam(w, v[i], PutMany(v[i + 1..], PutParam, s));
    }
    assert v[|v|..] == [];
    PutsNothing(PutParam, s);
    r := Ok(());
  }

  /** `write_host_import_schema`: validated first, then lengths. */
  method WriteImportSchema(w: Writer, v: ImportSchema, ghost s: Cur) returns (r: Result<()>)
    modifies w
    ensures r.Ok? <==> ImportValid(v) && SizedSchema(v)
    ensures r.Ok? ==> Grew(old(w.out), w.out, PutImportSchema(v, s), s)
  {
    hide PutBlob, PutCount, PutMany, PutHost, PutU64, Sized, DepthOf, NodesOf, PropsOf, Sum;
    var fault := ImportChecks.ValidateImport(v);
    if fault.Some? {
      return Err(InvalidHostSchemaComplexity);
    }
    ghost var t1 := PutU64(v.fingerprint, s);
    ghost var t2 := PutHost(v.result, t1);
    ghost var t3 := ChargeParams(|v.params|, PutMany(v.params, PutParam, t2));
    var _ := w.PushBlob(v.name, PutCount(|v.params|, t3));
    var _ := w.PushCount(|v.params|, t3);
    var _ :- WriteParams(w, v.params, t2);
    var _ :- WriteHost(w, v.result, 0, t1);
    w.PushU64(v.fingerprint, s);
    r := Ok(());
  }

  predicate WritableEntry(e: ImportEntry) {
    Short(e.item.name) && (e.schema.Some? ==> ImportValid(e.schema.value) && SizedSchema(e.schema.value))
  }

  method WriteEntry(w: Writer, v: ImportEntry, ghost s: Cur) returns (r: Result<()>)
    modifies w
    ensures r.Ok? <==> WritableEntry(v)
    ensures r.Ok? ==> Grew(old(w.out), w.out, PutEntry(v, s), s)
  {
    hide PutBlob, PutU8, PutImportSchema, ImportValid, SizedSchema;
    ghost var t := PutOption(v.schema, PutImportSchema, s);
    var _ :- w.PushBlob(v.item.name, PutU8(v.item.arity, PutU8(v.item.result, t)));
    w.PushU8(v.item.arity, PutU8(v.item.result, t));
    w.PushU8(v.item.result, t);
    if v.schema.Some? {
      w.PushU8(1, PutImportSchema(v.schema.value, s));
      var _ :- WriteImportSchema(w, v.schema.value, s);
    } else {
      w.PushU8(0, s);
    }
    r := Ok(());
  }

  method WriteEntries(w: Writer, v: seq<ImportEntry>, ghost s: Cur) returns (r: Result<()>)
    modifies w
    ensures r.Ok? <==> Short(v) && forall x <- v :: WritableEntry(x)
    ensures r.Ok? ==> Grew(old(w.out), w.out, PutList(v, PutEntry, s), s)
  {
    hide PutCount, PutMany, PutEntry;
    var _ :- w.PushCount(|v|, PutMany(v, PutEntry, s));
    for i := 0 to |v|
      invariant Grew(old(w.out), w.out, PutList(v, PutEntry, s), PutMany(v[i..], PutEntry, s))
      invariant forall k | 0 <= k < i :: WritableEntry(v[k])
    {
      assert v[i] in v;
      PutsMany(v, PutEntry, i, s);
      var _ :- WriteEntry(w, v[i], PutMany(v[i + 1..], PutEntry, s));
    }
    assert v[|v|..] == [];
    PutsNothing(PutEntry, s);
    r := Ok(());
  }
}
