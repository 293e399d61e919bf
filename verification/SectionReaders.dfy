/** The section readers: type map, debug information, callables and declarations, from a cursor. */
module SectionReaders {
  import opened Bytes
  import opened Seqs
  import opened Wire
  import opened Lists
  import opened Programs
  import opened Sections
  import opened CallableSections
  import opened Cursors
  import opened TreeReaders
  import Schemas

  // ---------------------------------------------------------------- small elements

  method GetBool(c: Cursor) returns (r: Result<bool>)
    requires c.Valid()
    modifies c`offset
    ensures c.Valid() && Did(ReadBool(old(c.State())), r, c.State())
  {
    hide ReadU8;
    var x :- c.GetU8();
    r := if x > 1 then Err(InvalidBool(x)) else Ok(x == 1);
  }

  method GetValueType(c: Cursor) returns (r: Result<ValueType>)
    requires c.Valid()
    modifies c`offset
    ensures c.Valid() && Did(ReadValueType(old(c.State())), r, c.State())
  {
    hide ReadU8;
    var x :- c.GetU8();
    r := if x >= 10 then Err(InvalidValueType(x)) else Ok(x);
  }

  method GetMode(c: Cursor) returns (r: Result<CaptureMode>)
    requires c.Valid()
    modifies c`offset
    ensures c.Valid() && Did(ReadMode(old(c.State())), r, c.State())
  {
    hide ReadU8;
    var x :- c.GetU8();
    r := if x >= 4 then Err(InvalidCaptureBindingMode(x)) else Ok(x);
  }

  /** A presence byte, reported as the kind of flag it is. */
  method GetFlag(c: Cursor, flag: Flag) returns (r: Result<bool>)
    requires c.Valid()
    modifies c`offset
    ensures c.Valid()
    ensures match ReadU8(old(c.State()))
            case Fail(e) => r == Err(e)
            case Got(b, s) => c.State() == s && r == if b == 0 then Ok(false) else if b == 1 then Ok(true) else Err(flag.Error(b))
  {
    hide ReadU8;
    var b :- c.GetU8();
    r := if b == 0 then Ok(false) else if b == 1 then Ok(true) else Err(flag.Error(b));
  }

  method GetOptSchema(c: Cursor) returns (r: Result<Option<Schemas.TypeSchema>>)
    requires c.Valid()
    modifies c`offset, c`items
    ensures c.Valid() && Did(ReadOptSchema(old(c.State())), r, c.State())
  {
    hide ReadU8, Schemas.ReadSchema;
    var present :- GetFlag(c, BoolFlag);
    if !present {
      return Ok(None);
    }
    var x :- GetSchema(c, 0);
    r := Ok(Some(x));
  }

  method GetOptU32(c: Cursor) returns (r: Result<Option<u32>>)
    requires c.Valid()
    modifies c`offset
    ensures c.Valid() && Did(ReadOptU32(old(c.State())), r, c.State())
  {
    hide ReadU8, ReadU32;
    var present :- GetFlag(c, DebugFlag);
    if !present {
      return Ok(None);
    }
    var x :- c.GetU32();
    r := Ok(Some(x));
  }

  method GetOptId(c: Cursor) returns (r: Result<Option<u32>>)
    requires c.Valid()
    modifies c`offset
    ensures c.Valid() && Did(ReadOptId(old(c.State())), r, c.State())
  {
    hide ReadU8, ReadU32;
    var present :- GetFlag(c, BoolFlag);
    if !present {
      return Ok(None);
    }
    var x :- c.GetU32();
    r := Ok(Some(x));
  }

  method GetSelf(c: Cursor) returns (r: Result<Option<u16>>)
    requires c.Valid()
    modifies c`offset
    ensures c.Valid() && Did(ReadSelf(old(c.State())), r, c.State())
  {
    hide ReadU8, ReadU16;
    var present :- GetFlag(c, BoolFlag);
    if !present {
      return Ok(None);
    }
    var x :- c.GetU16();
    r := Ok(Some(x));
  }

  // ---------------------------------------------------------------- type map

  method GetOperand(c: Cursor) returns (r: Result<Operand>)
    requires c.Valid()
    modifies c`offset
    ensures c.Valid() && Did(ReadOperand(old(c.State())), r, c.State())
  {
    hide ReadU32, ReadValueType;
    var x :- c.GetU32();
    var lhs :- GetValueType(c);
    var rhs :- GetValueType(c);
    r := Ok(Operand(x, lhs, rhs));
  }

  method GetOperands(c: Cursor) returns (r: Result<seq<Operand>>)
    requires c.Valid()
    modifies c`offset, c`items
    ensures c.Valid() && Did(ReadList(6, 0, ReadOperand, old(c.State())), r, c.State())
  {
    hide ReadCount, ReadOperand, PutOperand, PutCount;
    var n :- c.GetCount(6, 0);
    ghost var sxs := c.State();
    var xs: seq<Operand> := [];
    AheadNone(ReadMany(n, ReadOperand, sxs));
    for i := 0 to n
      invariant c.Valid() && ReadMany(n, ReadOperand, sxs) == Ahead(xs, ReadMany(n - i, ReadOperand, c.State()))
    {
      var x :- GetOperand(c);
      AheadOne(xs, x, ReadMany(n - i - 1, ReadOperand, c.State()));
      xs := xs + [x];
    }
    AheadAll(xs, c.State());
    r := Ok(xs);
  }

  /** A boolean vector whose length must match the locals'. */
  method GetBools(c: Cursor, n: nat) returns (r: Result<seq<bool>>)
    requires c.Valid()
    modifies c`offset, c`items
    ensures c.Valid() && Did(ReadBools(n, old(c.State())), r, c.State())
  {
    hide ReadU32, ReadBool, Debit;
    var count :- c.GetU32();
    if count != n {
      return Err(TrailingBytes);
    }
    if n > MAX_COUNT || n > c.Remaining() {
      return Err(LengthTooLarge(n));
    }
    var _ :- c.DebitCount(n);
    ghost var sxs := c.State();
    var xs: seq<bool> := [];
    AheadNone(ReadMany(n, ReadBool, sxs));
    for i := 0 to n
      invariant c.Valid() && ReadMany(n, ReadBool, sxs) == Ahead(xs, ReadMany(n - i, ReadBool, c.State()))
    {
      var x :- GetBool(c);
      AheadOne(xs, x, ReadMany(n - i - 1, ReadBool, c.State()));
      xs := xs + [x];
    }
    AheadAll(xs, c.State());
    r := Ok(xs);
  }

  method GetLocalTypes(c: Cursor, n: nat) returns (r: Result<seq<ValueType>>)
    requires c.Valid()
    modifies c`offset
    ensures c.Valid() && Did(ReadMany(n, ReadValueType, old(c.State())), r, c.State())
  {
    hide ReadValueType;
    ghost var sxs := c.State();
    var xs: seq<ValueType> := [];
    AheadNone(ReadMany(n, ReadValueType, sxs));
    for i := 0 to n
      invariant c.Valid() && ReadMany(n, ReadValueType, sxs) == Ahead(xs, ReadMany(n - i, ReadValueType, c.State()))
    {
      var x :- GetValueType(c);
      AheadOne(xs, x, ReadMany(n - i - 1, ReadValueType, c.State()));
      xs := xs + [x];
    }
    AheadAll(xs, c.State());
    r := Ok(xs);
  }

  method GetLocalSchemas(c: Cursor, n: nat) returns (r: Result<seq<Option<Schemas.TypeSchema>>>)
    requires c.Valid()
    modifies c`offset, c`items
    ensures c.Valid() && Did(ReadMany(n, ReadOptSchema, old(c.State())), r, c.State())
  {
    hide ReadOptSchema;
    ghost var sxs := c.State();
    var xs: seq<Option<Schemas.TypeSchema>> := [];
    AheadNone(ReadMany(n, ReadOptSchema, sxs));
    for i := 0 to n
      invariant c.Valid() && ReadMany(n, ReadOptSchema, sxs) == Ahead(xs, ReadMany(n - i, ReadOptSchema, c.State()))
    {
      var x :- GetOptSchema(c);
      AheadOne(xs, x, ReadMany(n - i - 1, ReadOptSchema, c.State()));
      xs := xs + [x];
    }
    AheadAll(xs, c.State());
    r := Ok(xs);
  }

  method GetTypeMap(c: Cursor) returns (r: Result<TypeMap>)
    requires c.Valid()
    modifies c`offset, c`items
    ensures c.Valid() && Did(ReadTypeMap(old(c.State())), r, c.State())
  {
    hide ReadBool, ReadCount, ReadTypeMapTail;
    var strict :- GetBool(c);
    var n :- c.GetCount(4, 12);
    if n > MAX_FRAME_LOCALS {
      return Err(LengthTooLarge(n));
    }
    r := GetTypeMapTail(c, strict, n);
  }

  method GetTypeMapTail(c: Cursor, strict: bool, n: nat) returns (r: Result<TypeMap>)
    requires c.Valid() && n <= MAX_FRAME_LOCALS
    modifies c`offset, c`items
    ensures c.Valid() && Did(ReadTypeMapTail(strict, n, old(c.State())), r, c.State())
  {
    hide ReadMany, ReadList, ReadBools, ReadOperand, ReadValueType, ReadOptSchema;
    var locals :- GetLocalTypes(c, n);
    var schemas :- GetLocalSchemas(c, n);
    var callables :- GetBools(c, n);
    var optionals :- GetBools(c, n);
    var operands :- GetOperands(c);
    r := Ok(TypeMap(strict, locals, schemas, callables, optionals, operands));
  }

  // ---------------------------------------------------------------- debug information

  method GetLine(c: Cursor) returns (r: Result<Line>)
    requires c.Valid()
    modifies c`offset
    ensures c.Valid() && Did(ReadLine(old(c.State())), r, c.State())
  {
    hide ReadU32;
    var x :- c.GetU32();
    var y :- c.GetU32();
    r := Ok(Line(x, y));
  }

  method GetLines(c: Cursor) returns (r: Result<seq<Line>>)
    requires c.Valid()
    modifies c`offset, c`items
    ensures c.Valid() && Did(ReadList(8, 0, ReadLine, old(c.State())), r, c.State())
  {
    hide ReadCount, ReadLine, PutLine, PutCount;
    var n :- c.GetCount(8, 0);
    ghost var sxs := c.State();
    var xs: seq<Line> := [];
    AheadNone(ReadMany(n, ReadLine, sxs));
    for i := 0 to n
      invariant c.Valid() && ReadMany(n, ReadLine, sxs) == Ahead(xs, ReadMany(n - i, ReadLine, c.State()))
    {
      var x :- GetLine(c);
      AheadOne(xs, x, ReadMany(n - i - 1, ReadLine, c.State()));
      xs := xs + [x];
    }
    AheadAll(xs, c.State());
    r := Ok(xs);
  }

  method GetArg(c: Cursor) returns (r: Result<Arg>)
    requires c.Valid()
    modifies c`offset
    ensures c.Valid() && Did(ReadArg(old(c.State())), r, c.State())
  {
    hide ReadString, ReadU8;
    var x :- c.GetString();
    var y :- c.GetU8();
    r := Ok(Arg(x, y));
  }

  method GetArgs(c: Cursor) returns (r: Result<seq<Arg>>)
    requires c.Valid()
    modifies c`offset, c`items
    ensures c.Valid() && Did(ReadList(5, 0, ReadArg, old(c.State())), r, c.State())
  {
    hide ReadCount, ReadArg, FitsArg, PutArg, PutCount;
    var n :- c.GetCount(5, 0);
    ghost var sxs := c.State();
    var xs: seq<Arg> := [];
    AheadNone(ReadMany(n, ReadArg, sxs));
    for i := 0 to n
      invariant c.Valid() && ReadMany(n, ReadArg, sxs) == Ahead(xs, ReadMany(n - i, ReadArg, c.State()))
    {
      var x :- GetArg(c);
      AheadOne(xs, x, ReadMany(n - i - 1, ReadArg, c.State()));
      xs := xs + [x];
    }
    AheadAll(xs, c.State());
    r := Ok(xs);
  }

  method GetFunction(c: Cursor) returns (r: Result<DebugFunction>)
    requires c.Valid()
    modifies c`offset, c`items
    ensures c.Valid() && Did(ReadFunction(old(c.State())), r, c.State())
  {
    hide ReadString, ReadList, ReadArg;
    var x :- c.GetString();
    var args :- GetArgs(c);
    r := Ok(DebugFunction(x, args));
  }

  method GetFunctions(c: Cursor) returns (r: Result<seq<DebugFunction>>)
    requires c.Valid()
    modifies c`offset, c`items
    ensures c.Valid() && Did(ReadList(8, 0, ReadFunction, old(c.State())), r, c.State())
  {
    hide ReadCount, ReadFunction, FitsFunction, PutFunction, PutCount;
    var n :- c.GetCount(8, 0);
    ghost var sxs := c.State();
    var xs: seq<DebugFunction> := [];
    AheadNone(ReadMany(n, ReadFunction, sxs));
    for i := 0 to n
      invariant c.Valid() && ReadMany(n, ReadFunction, sxs) == Ahead(xs, ReadMany(n - i, ReadFunction, c.State()))
    {
      var x :- GetFunction(c);
      AheadOne(xs, x, ReadMany(n - i - 1, ReadFunction, c.State()));
      xs := xs + [x];
    }
    AheadAll(xs, c.State());
    r := Ok(xs);
  }

  method GetLocal(c: Cursor) returns (r: Result<Local>)
    requires c.Valid()
    modifies c`offset
    ensures c.Valid() && Did(ReadLocal(old(c.State())), r, c.State())
  {
    hide ReadString, ReadU8, ReadOptU32;
    var x :- c.GetString();
    var index :- c.GetU8();
    var declared :- GetOptU32(c);
    var last :- GetOptU32(c);
    r := Ok(Local(x, index, declared, last));
  }

  method GetLocals(c: Cursor) returns (r: Result<seq<Local>>)
    requires c.Valid()
    modifies c`offset, c`items
    ensures c.Valid() && Did(ReadList(7, 0, ReadLocal, old(c.State())), r, c.State())
  {
    hide ReadCount, ReadLocal, FitsLocal, PutLocal, PutCount;
    var n :- c.GetCount(7, 0);
    ghost var sxs := c.State();
    var xs: seq<Local> := [];
    AheadNone(ReadMany(n, ReadLocal, sxs));
    for i := 0 to n
      invariant c.Valid() && ReadMany(n, ReadLocal, sxs) == Ahead(xs, ReadMany(n - i, ReadLocal, c.State()))
    {
      var x :- GetLocal(c);
      AheadOne(xs, x, ReadMany(n - i - 1, ReadLocal, c.State()));
      xs := xs + [x];
    }
    AheadAll(xs, c.State());
    r := Ok(xs);
  }

  /** `read_debug_info`, after its flag. */
  method GetDebug(c: Cursor) returns (r: Result<DebugInfo>)
    requires c.Valid()
    modifies c`offset, c`items
    ensures c.Valid() && Did(ReadDebug(old(c.State())), r, c.State())
  {
    hide ReadU8, ReadString, ReadList, ReadLine, ReadFunction, ReadLocal;
    var present :- GetFlag(c, DebugFlag);
    var source := None;
    if present {
      var x :- c.GetString();
      source := Some(x);
    }
    var lines :- GetLines(c);
    var functions :- GetFunctions(c);
    var locals :- GetLocals(c);
    r := Ok(DebugInfo(source, lines, functions, locals));
  }

  // ---------------------------------------------------------------- callables

  method GetScriptFunction(c: Cursor) returns (r: Result<ScriptFunction>)
    requires c.Valid()
    modifies c`offset
    ensures c.Valid() && Did(ReadScriptFunction(old(c.State())), r, c.State())
  {
    hide ReadU32;
    var x :- c.GetU32();
    var y :- c.GetU32();
    r := Ok(ScriptFunction(x, y));
  }

  method GetScriptFunctions(c: Cursor) returns (r: Result<seq<ScriptFunction>>)
    requires c.Valid()
    modifies c`offset, c`items
    ensures c.Valid() && Did(ReadList(8, 0, ReadScriptFunction, old(c.State())), r, c.State())
  {
    hide ReadCount, ReadScriptFunction, PutScriptFunction, PutCount;
    var n :- c.GetCount(8, 0);
    ghost var sxs := c.State();
    var xs: seq<ScriptFunction> := [];
    AheadNone(ReadMany(n, ReadScriptFunction, sxs));
    for i := 0 to n
      invariant c.Valid() && ReadMany(n, ReadScriptFunction, sxs) == Ahead(xs, ReadMany(n - i, ReadScriptFunction, c.State()))
    {
      var x :- GetScriptFunction(c);
      AheadOne(xs, x, ReadMany(n - i - 1, ReadScriptFunction, c.State()));
      xs := xs + [x];
    }
    AheadAll(xs, c.State());
    r := Ok(xs);
  }

  method GetRegion(c: Cursor) returns (r: Result<Region>)
    requires c.Valid()
    modifies c`offset
    ensures c.Valid() && Did(ReadRegion(old(c.State())), r, c.State())
  {
    hide ReadU32, ReadOptId;
    var x :- c.GetU32();
    var y :- c.GetU32();
    var id :- GetOptId(c);
    r := Ok(Region(x, y, id));
  }

  method GetRegions(c: Cursor) returns (r: Result<seq<Region>>)
    requires c.Valid()
    modifies c`offset, c`items
    ensures c.Valid() && Did(ReadList(9, 0, ReadRegion, old(c.State())), r, c.State())
  {
    hide ReadCount, ReadRegion, PutRegion, PutCount;
    var n :- c.GetCount(9, 0);
    ghost var sxs := c.State();
    var xs: seq<Region> := [];
    AheadNone(ReadMany(n, ReadRegion, sxs));
    for i := 0 to n
      invariant c.Valid() && ReadMany(n, ReadRegion, sxs) == Ahead(xs, ReadMany(n - i, ReadRegion, c.State()))
    {
      var x :- GetRegion(c);
      AheadOne(xs, x, ReadMany(n - i - 1, ReadRegion, c.State()));
      xs := xs + [x];
    }
    AheadAll(xs, c.State());
    r := Ok(xs);
  }

  method GetBinding(c: Cursor) returns (r: Result<Binding>)
    requires c.Valid()
    modifies c`offset
    ensures c.Valid() && Did(ReadBinding(old(c.State())), r, c.State())
  {
    hide ReadU16, ReadU32;
    var x :- c.GetU16();
    var y :- c.GetU32();
    r := Ok(Binding(x, y));
  }

  method GetBindings(c: Cursor) returns (r: Result<seq<Binding>>)
    requires c.Valid()
    modifies c`offset, c`items
    ensures c.Valid() && Did(ReadList(6, 0, ReadBinding, old(c.State())), r, c.State())
  {
    hide ReadCount, ReadBinding, PutBinding, PutCount;
    var n :- c.GetCount(6, 0);
    ghost var sxs := c.State();
    var xs: seq<Binding> := [];
    AheadNone(ReadMany(n, ReadBinding, sxs));
    for i := 0 to n
      invariant c.Valid() && ReadMany(n, ReadBinding, sxs) == Ahead(xs, ReadMany(n - i, ReadBinding, c.State()))
    {
      var x :- GetBinding(c);
      AheadOne(xs, x, ReadMany(n - i - 1, ReadBinding, c.State()));
      xs := xs + [x];
    }
    AheadAll(xs, c.State());
    r := Ok(xs);
  }

  method GetExport(c: Cursor) returns (r: Result<Export>)
    requires c.Valid()
    modifies c`offset
    ensures c.Valid() && Did(ReadExport(old(c.State())), r, c.State())
  {
    hide ReadString, ReadU16;
    var x :- c.GetString();
    var y :- c.GetU16();
    r := Ok(Export(x, y));
  }

  method GetExports(c: Cursor) returns (r: Result<seq<Export>>)
    requires c.Valid()
    modifies c`offset, c`items
    ensures c.Valid() && Did(ReadList(6, 0, ReadExport, old(c.State())), r, c.State())
  {
    hide ReadCount, ReadExport, FitsExport, PutExport, PutCount;
    var n :- c.GetCount(6, 0);
    ghost var sxs := c.State();
    var xs: seq<Export> := [];
    AheadNone(ReadMany(n, ReadExport, sxs));
    for i := 0 to n
      invariant c.Valid() && ReadMany(n, ReadExport, sxs) == Ahead(xs, ReadMany(n - i, ReadExport, c.State()))
    {
      var x :- GetExport(c);
      AheadOne(xs, x, ReadMany(n - i - 1, ReadExport, c.State()));
      xs := xs + [x];
    }
    AheadAll(xs, c.State());
    r := Ok(xs);
  }

  method GetKind(c: Cursor) returns (r: Result<CallableKind>)
    requires c.Valid()
    modifies c`offset
    ensures c.Valid() && Did(ReadKind(old(c.State())), r, c.State())
  {
    hide ReadU8;
    var x :- c.GetU8();
    r := if x >= 3 then Err(InvalidValueType(x)) else Ok(x);
  }

  method GetTarget(c: Cursor) returns (r: Result<Target>)
    requires c.Valid()
    modifies c`offset
    ensures c.Valid() && Did(ReadTarget(old(c.State())), r, c.State())
  {
    hide ReadU8, ReadU32;
    var tag :- c.GetU8();
    var id :- c.GetU32();
    r := if tag == 0 then Ok(Script(id)) else if tag == 1 && id < 0x1_0000 then Ok(Host(id)) else Err(InvalidValueType(tag));
  }

  method GetSlots(c: Cursor) returns (r: Result<seq<u16>>)
    requires c.Valid()
    modifies c`offset, c`items
    ensures c.Valid() && Did(ReadSlots(old(c.State())), r, c.State())
  {
    hide ReadCount, ReadU16;
    var n :- c.GetCount(2, 0);
    ghost var sxs := c.State();
    var xs: seq<u16> := [];
    AheadNone(ReadMany(n, ReadU16, sxs));
    for i := 0 to n
      invariant c.Valid() && ReadMany(n, ReadU16, sxs) == Ahead(xs, ReadMany(n - i, ReadU16, c.State()))
    {
      var x :- c.GetU16();
      AheadOne(xs, x, ReadMany(n - i - 1, ReadU16, c.State()));
      xs := xs + [x];
    }
    AheadAll(xs, c.State());
    r := Ok(xs);
  }

  method GetModes(c: Cursor) returns (r: Result<seq<CaptureMode>>)
    requires c.Valid()
    modifies c`offset, c`items
    ensures c.Valid() && Did(ReadModes(old(c.State())), r, c.State())
  {
    hide ReadCount, ReadMode;
    var n :- c.GetCount(1, 0);
    ghost var sxs := c.State();
    var xs: seq<CaptureMode> := [];
    AheadNone(ReadMany(n, ReadMode, sxs));
    for i := 0 to n
      invariant c.Valid() && ReadMany(n, ReadMode, sxs) == Ahead(xs, ReadMany(n - i, ReadMode, c.State()))
    {
      var x :- GetMode(c);
      AheadOne(xs, x, ReadMany(n - i - 1, ReadMode, c.State()));
      xs := xs + [x];
    }
    AheadAll(xs, c.State());
    r := Ok(xs);
  }

  method GetPrototype(c: Cursor) returns (r: Result<Prototype>)
    requires c.Valid()
    modifies c`offset, c`items
    ensures c.Valid() && Did(ReadPrototype(old(c.State())), r, c.State())
  {
    hide ReadKind, ReadTarget, ReadU8, ReadFrameLocals, ReadLayout;
    var kind :- GetKind(c);
    var target :- GetTarget(c);
    var arity :- c.GetU8();
    var locals :- c.GetFrameLocals();
    r := GetLayout(c, Prototype(kind, target, arity, locals, [], [], [], [], None, None));
  }

  method GetLayout(c: Cursor, p: Prototype) returns (r: Result<Prototype>)
    requires c.Valid() && p.frameLocals <= MAX_FRAME_LOCALS
    modifies c`offset, c`items
    ensures c.Valid() && Did(ReadLayout(p, old(c.State())), r, c.State())
  {
    hide ReadSlots, ReadModes, ReadSelf, ReadOptSchema;
    var params :- GetSlots(c);
    var sources :- GetSlots(c);
    var captures :- GetSlots(c);
    var modes :- GetModes(c);
    var self :- GetSelf(c);
    var schema :- GetOptSchema(c);
    r := Ok(p.(params := params, sources := sources, captures := captures, modes := modes, self := self, schema := schema));
  }

  method GetPrototypes(c: Cursor) returns (r: Result<seq<Prototype>>)
    requires c.Valid()
    modifies c`offset, c`items
    ensures c.Valid() && Did(ReadList(29, 0, ReadPrototype, old(c.State())), r, c.State())
  {
    hide ReadCount, ReadPrototype, FitsPrototype, PutPrototype, PutCount;
    var n :- c.GetCount(29, 0);
    ghost var sxs := c.State();
    var xs: seq<Prototype> := [];
    AheadNone(ReadMany(n, ReadPrototype, sxs));
    for i := 0 to n
      invariant c.Valid() && ReadMany(n, ReadPrototype, sxs) == Ahead(xs, ReadMany(n - i, ReadPrototype, c.State()))
    {
      var x :- GetPrototype(c);
      AheadOne(xs, x, ReadMany(n - i - 1, ReadPrototype, c.State()));
      xs := xs + [x];
    }
    AheadAll(xs, c.State());
    r := Ok(xs);
  }

  /** `read_callable_metadata`. */
  method GetCallables(c: Cursor) returns (r: Result<Callables>)
    requires c.Valid()
    modifies c`offset, c`items
    ensures c.Valid() && Did(ReadCallables(old(c.State())), r, c.State())
  {
    hide ReadList, ReadScriptFunction, ReadPrototype, ReadRegion, ReadBinding, ReadExport;
    var functions :- GetScriptFunctions(c);
    var prototypes :- GetPrototypes(c);
    var regions :- GetRegions(c);
    var bindings :- GetBindings(c);
    var exports :- GetExports(c);
    r := Ok(Callables(functions, prototypes, regions, bindings, exports));
  }

  // ---------------------------------------------------------------- declarations

  /** Type parameters must differ. */
  method GetTypeParams(c: Cursor, n: nat) returns (r: Result<seq<Str>>)
    requires c.Valid()
    modifies c`offset
    ensures c.Valid() && Did(ReadUnique(n, ReadString, Itself, {}, old(c.State())), r, c.State())
  {
    hide ReadString, ReadMany, Distinct;
    ghost var s := c.State();
    var xs: seq<Str>, seen: set<Str> := [], {};
    AheadNone(ReadUnique(n, ReadString, Itself, {}, s));
    for i := 0 to n
      invariant c.Valid() && ReadUnique(n, ReadString, Itself, {}, s) == Ahead(xs, ReadUnique(n - i, ReadString, Itself, seen, c.State()))
    {
      var x :- c.GetString();
      if x in seen {
        return Err(InvalidValueType(0));
      }
      AheadOne(xs, x, ReadUnique(n - i - 1, ReadString, Itself, seen + {x}, c.State()));
      xs, seen := xs + [x], seen + {x};
    }
    AheadAll(xs, c.State());
    r := Ok(xs);
  }

  method GetDecl(c: Cursor) returns (r: Result<Decl>)
    requires c.Valid()
    modifies c`offset, c`items
    ensures c.Valid() && Did(ReadDecl(old(c.State())), r, c.State())
  {
    hide ReadString, ReadCount, ReadUnique, Schemas.ReadSchema;
    var x :- c.GetString();
    var n :- c.GetCount(1, 0);
    var params :- GetTypeParams(c, n);
    var body :- GetSchema(c, 0);
    r := Ok(Decl(x, params, body));
  }

  /** `read_named_struct_decls`. */
  method GetDecls(c: Cursor) returns (r: Result<seq<Decl>>)
    requires c.Valid()
    modifies c`offset, c`items
    ensures c.Valid() && Did(ReadDeclList(old(c.State())), r, c.State())
  {
    hide ReadCount, PutCount, ReadDecl, PutDecl, FitsDecl, ReadMany, Distinct, PutDeclList, FitsDeclList;
    var n :- c.GetCount(1, 0);
    ghost var s := c.State();
    var xs: seq<Decl>, seen: set<Str> := [], {};
    AheadNone(ReadUnique(n, ReadDecl, DeclName, {}, s));
    for i := 0 to n
      invariant c.Valid() && ReadUnique(n, ReadDecl, DeclName, {}, s) == Ahead(xs, ReadUnique(n - i, ReadDecl, DeclName, seen, c.State()))
    {
      var x :- GetDecl(c);
      if x.name in seen {
        return Err(InvalidValueType(0));
      }
      AheadOne(xs, x, ReadUnique(n - i - 1, ReadDecl, DeclName, seen + {x.name}, c.State()));
      xs, seen := xs + [x], seen + {x.name};
    }
    AheadAll(xs, c.State());
    r := Ok(xs);
  }
}
