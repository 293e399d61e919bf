/** The freestanding decoder as loops over one cursor, proved against its functions, in the order of the source. */
module SlimReader {
  import opened Bytes
  import opened Wire
  import opened Lists
  import opened Programs
  import opened Sections
  import opened CallableSections
  import opened ImportSections
  import opened Payload
  import opened Cursors
  import opened TreeReaders
  import opened SectionReaders
  import opened Decoder
  import opened SlimDecoder
  import opened SlimSections
  import opened SlimCodec
  import Bytecode
  import NameChecks

  /** The same outcome, whatever was read. */
  predicate Agree<T, U>(a: Read<T>, b: Read<U>) {
    match a
    case Got(_, s) => b.Got? && b.s == s
    case Fail(e) => b.Fail? && b.error == e
  }

  // ---------------------------------------------------------------- schemas

  method PassString(c: Cursor) returns (r: Result<()>)
    requires c.Valid()
    modifies c`offset
    ensures c.Valid() && Did(SkipString(old(c.State())), r, c.State())
  {
    hide ReadBlob;
    var _ :- c.GetBlob();
    r := Ok(());
  }

  /** `skip_resource_key`. */
  method PassKey(c: Cursor) returns (r: Result<()>)
    requires c.Valid()
    modifies c`offset
    ensures c.Valid() && Did(SkipKey(old(c.State())), r, c.State())
  {
    hide ReadBlob;
    var x :- c.GetBlob();
    if x == [] || |x| > MAX_NAME {
      return Err(InvalidResourceKey);
    }
    if !Utf8(x) {
      return Err(InvalidUtf8);
    }
    var ok := NameChecks.SkipResourceKey(x);
    r := if ok then Ok(()) else Err(InvalidResourceKey);
  }

  /** `skip_schema`. */
  method PassSchema(c: Cursor, depth: nat) returns (r: Result<()>)
    requires c.Valid() && depth <= MAX_SCHEMA_DEPTH
    modifies c`offset, c`items
    ensures c.Valid() && Did(SkipSchema(depth, old(c.State())), r, c.State())
    decreases MAX_SCHEMA_DEPTH - depth, 0
  {
    hide ReadU8, Debit, ReadCount, SkipString, SkipKey, SkipSchemas, SkipFields;
    if depth >= MAX_SCHEMA_DEPTH {
      return Err(SchemaTooDeep);
    }
    var _ :- c.DebitCount(1);
    var tag :- c.GetU8();
    if tag <= 7 {
      r := Ok(());
    } else if tag == 8 {
      r := PassString(c);
    } else if tag == 9 {
      var _ :- PassString(c);
      var n :- c.GetCount(1, 0);
      r := PassSchemas(c, n, depth + 1);
    } else if tag == 10 || tag == 13 || tag == 16 {
      r := PassSchema(c, depth + 1);
    } else if tag == 11 {
      var n :- c.GetCount(1, 0);
      r := PassSchemas(c, n, depth + 1);
    } else if tag == 12 || tag == 15 {
      var n :- c.GetCount(1, 1);
      var _ :- PassSchemas(c, n, depth + 1);
      r := PassSchema(c, depth + 1);
    } else if tag == 14 {
      var n :- c.GetCount(5, 0);
      r := PassFields(c, n, depth + 1);
    } else if tag == 17 {
      r := PassKey(c);
    } else {
      r := Err(InvalidValueType(tag));
    }
  }

  method PassSchemas(c: Cursor, n: nat, depth: nat) returns (r: Result<()>)
    requires c.Valid() && depth <= MAX_SCHEMA_DEPTH
    modifies c`offset, c`items
    ensures c.Valid() && Did(SkipSchemas(n, depth, old(c.State())), r, c.State())
    decreases MAX_SCHEMA_DEPTH - depth, 1
  {
    hide SkipSchema;
    ghost var s := c.State();
    for i := 0 to n
      invariant c.Valid() && SkipSchemas(n, depth, s) == SkipSchemas(n - i, depth, c.State())
    {
      var _ :- PassSchema(c, depth);
    }
    r := Ok(());
  }

  method PassFields(c: Cursor, n: nat, depth: nat) returns (r: Result<()>)
    requires c.Valid() && depth <= MAX_SCHEMA_DEPTH
    modifies c`offset, c`items
    ensures c.Valid() && Did(SkipFields(n, depth, old(c.State())), r, c.State())
    decreases MAX_SCHEMA_DEPTH - depth, 1
  {
    hide SkipSchema, SkipString;
    ghost var s := c.State();
    for i := 0 to n
      invariant c.Valid() && SkipFields(n, depth, s) == SkipFields(n - i, depth, c.State())
    {
      var _ :- PassString(c);
      var _ :- PassSchema(c, depth);
    }
    r := Ok(());
  }

  /** `skip_host_schema`. */
  method PassHost(c: Cursor, depth: nat) returns (r: Result<()>)
    requires c.Valid() && depth <= MAX_SCHEMA_DEPTH
    modifies c`offset, c`items
    ensures c.Valid() && Did(SkipHost(depth, old(c.State())), r, c.State())
    decreases MAX_SCHEMA_DEPTH - depth, 0
  {
    hide ReadU8, ReadCount, SkipString, SkipHosts, SkipHostFields;
    if depth >= MAX_SCHEMA_DEPTH {
      return Err(SchemaTooDeep);
    }
    var tag :- c.GetU8();
    if tag <= 7 {
      r := Ok(());
    } else if tag <= 10 {
      r := PassHost(c, depth + 1);
    } else if tag == 11 {
      var n :- c.GetCount(1, 1);
      var _ :- PassHosts(c, n, depth + 1);
      r := PassHost(c, depth + 1);
    } else if tag == 12 {
      r := PassString(c);
    } else if tag == 13 {
      var _ :- PassString(c);
      var n :- c.GetCount(1, 1);
      r := PassHostFields(c, n, depth + 1);
    } else {
      r := Err(InvalidValueType(tag));
    }
  }

  method PassHosts(c: Cursor, n: nat, depth: nat) returns (r: Result<()>)
    requires c.Valid() && depth <= MAX_SCHEMA_DEPTH
    modifies c`offset, c`items
    ensures c.Valid() && Did(SkipHosts(n, depth, old(c.State())), r, c.State())
    decreases MAX_SCHEMA_DEPTH - depth, 1
  {
    hide SkipHost;
    ghost var s := c.State();
    for i := 0 to n
      invariant c.Valid() && SkipHosts(n, depth, s) == SkipHosts(n - i, depth, c.State())
    {
      var _ :- PassHost(c, depth);
    }
    r := Ok(());
  }

  method PassHostFields(c: Cursor, n: nat, depth: nat) returns (r: Result<()>)
    requires c.Valid() && depth <= MAX_SCHEMA_DEPTH
    modifies c`offset, c`items
    ensures c.Valid() && Did(SkipHostFields(n, depth, old(c.State())), r, c.State())
    decreases MAX_SCHEMA_DEPTH - depth, 1
  {
    hide SkipHost, SkipString;
    ghost var s := c.State();
    for i := 0 to n
      invariant c.Valid() && SkipHostFields(n, depth, s) == SkipHostFields(n - i, depth, c.State())
    {
      var _ :- PassString(c);
      var _ :- PassHost(c, depth);
    }
    r := Ok(());
  }

  // ---------------------------------------------------------------- imports

  method PassParam(c: Cursor) returns (r: Result<()>)
    requires c.Valid()
    modifies c`offset, c`items
    ensures c.Valid() && Did(SkipParam(old(c.State())), r, c.State())
  {
    hide SkipString, SkipHost, ReadU8;
    var _ :- PassString(c);
    var _ :- PassHost(c, 0);
    var x :- c.GetU8();
    r := if x > 3 then Err(InvalidValueType(x)) else Ok(());
  }

  method PassParams(c: Cursor) returns (r: Result<()>)
    requires c.Valid()
    modifies c`offset, c`items
    ensures c.Valid() && Passed(ReadList(6, 0, SkipParam, old(c.State())), r, c.State())
  {
    hide ReadCount, SkipParam;
    var n :- c.GetCount(6, 0);
    ghost var s := c.State();
    for i := 0 to n
      invariant c.Valid() && Agree(ReadMany(n, SkipParam, s), ReadMany(n - i, SkipParam, c.State()))
    {
      var _ :- PassParam(c);
    }
    r := Ok(());
  }

  /** `skip_host_import_schema`. */
  method PassImportSchema(c: Cursor) returns (r: Result<()>)
    requires c.Valid()
    modifies c`offset, c`items
    ensures c.Valid() && Did(SkipImportSchema(old(c.State())), r, c.State())
  {
    hide SkipString, ReadList, SkipHost, ReadExact;
    var _ :- PassString(c);
    var _ :- PassParams(c);
    var _ :- PassHost(c, 0);
    var _ :- c.GetExact(8);
    r := Ok(());
  }

  method GetSlimEntry(c: Cursor) returns (r: Result<HostImport>)
    requires c.Valid()
    modifies c`offset, c`items
    ensures c.Valid() && Did(SlimEntry(old(c.State())), r, c.State())
  {
    hide ReadU8, ReadLegacy, SkipImportSchema;
    var i :- GetLegacy(c);
    var present :- GetFlag(c, BoolFlag);
    if present {
      var _ :- PassImportSchema(c);
    }
    r := Ok(i);
  }

  method GetSlimEntries(c: Cursor) returns (r: Result<seq<HostImport>>)
    requires c.Valid()
    modifies c`offset, c`items
    ensures c.Valid() && Did(ReadList(7, 0, SlimEntry, old(c.State())), r, c.State())
  {
    hide ReadCount, PutCount, SlimEntry;
    var n :- c.GetCount(7, 0);
    ghost var sxs := c.State();
    var xs: seq<HostImport> := [];
    AheadNone(ReadMany(n, SlimEntry, sxs));
    for i := 0 to n
      invariant c.Valid() && ReadMany(n, SlimEntry, sxs) == Ahead(xs, ReadMany(n - i, SlimEntry, c.State()))
    {
      var x :- GetSlimEntry(c);
      AheadOne(xs, x, ReadMany(n - i - 1, SlimEntry, c.State()));
      xs := xs + [x];
    }
    AheadAll(xs, c.State());
    r := Ok(xs);
  }

  method GetSlimImports(c: Cursor, v: Version) returns (r: Result<seq<HostImport>>)
    requires c.Valid()
    modifies c`offset, c`items
    ensures c.Valid() && Did(SlimImports(v, old(c.State())), r, c.State())
  {
    hide ReadList;
    if v == 11 {
      r := GetLegacies(c);
    } else {
      r := GetSlimEntries(c);
    }
  }

  // ---------------------------------------------------------------- type map and debug information

  method PassOptSchema(c: Cursor) returns (r: Result<()>)
    requires c.Valid()
    modifies c`offset, c`items
    ensures c.Valid() && Did(SkipOptSchema(old(c.State())), r, c.State())
  {
    hide ReadU8, SkipSchema;
    var present :- GetFlag(c, BoolFlag);
    if present {
      var _ :- PassSchema(c, 0);
    }
    r := Ok(());
  }

  method PassOptSchemas(c: Cursor, n: nat) returns (r: Result<()>)
    requires c.Valid()
    modifies c`offset, c`items
    ensures c.Valid() && Passed(ReadMany(n, SkipOptSchema, old(c.State())), r, c.State())
  {
    hide SkipOptSchema;
    ghost var s := c.State();
    for i := 0 to n
      invariant c.Valid() && Agree(ReadMany(n, SkipOptSchema, s), ReadMany(n - i, SkipOptSchema, c.State()))
    {
      var _ :- PassOptSchema(c);
    }
    r := Ok(());
  }

  /** `skip_type_map`, after its flag: the number of locals. */
  method GetSlimTypeMap(c: Cursor) returns (r: Result<nat>)
    requires c.Valid()
    modifies c`offset, c`items
    ensures c.Valid() && Did(SlimTypeMap(old(c.State())), r, c.State())
  {
    hide ReadBool, ReadCount, ReadMany, ReadBools, ReadList;
    var _ :- GetBool(c);
    var n :- c.GetCount(4, 12);
    if n > MAX_FRAME_LOCALS {
      return Err(LengthTooLarge(n));
    }
    var _ :- GetLocalTypes(c, n);
    var _ :- PassOptSchemas(c, n);
    var _ :- GetBools(c, n);
    var _ :- GetBools(c, n);
    var _ :- GetOperands(c);
    r := Ok(n);
  }

  method PassArg(c: Cursor) returns (r: Result<()>)
    requires c.Valid()
    modifies c`offset
    ensures c.Valid() && Did(SkipArg(old(c.State())), r, c.State())
  {
    hide SkipString, ReadU8;
    var _ :- PassString(c);
    var _ :- c.GetU8();
    r := Ok(());
  }

  method PassArgs(c: Cursor) returns (r: Result<()>)
    requires c.Valid()
    modifies c`offset, c`items
    ensures c.Valid() && Passed(ReadList(5, 0, SkipArg, old(c.State())), r, c.State())
  {
    hide ReadCount, SkipArg;
    var n :- c.GetCount(5, 0);
    ghost var s := c.State();
    for i := 0 to n
      invariant c.Valid() && Agree(ReadMany(n, SkipArg, s), ReadMany(n - i, SkipArg, c.State()))
    {
      var _ :- PassArg(c);
    }
    r := Ok(());
  }

  method PassFunction(c: Cursor) returns (r: Result<()>)
    requires c.Valid()
    modifies c`offset, c`items
    ensures c.Valid() && Did(SkipFunction(old(c.State())), r, c.State())
  {
    hide SkipString, ReadList;
    var _ :- PassString(c);
    var _ :- PassArgs(c);
    r := Ok(());
  }

  method PassFunctions(c: Cursor) returns (r: Result<()>)
    requires c.Valid()
    modifies c`offset, c`items
    ensures c.Valid() && Passed(ReadList(8, 0, SkipFunction, old(c.State())), r, c.State())
  {
    hide ReadCount, SkipFunction;
    var n :- c.GetCount(8, 0);
    ghost var s := c.State();
    for i := 0 to n
      invariant c.Valid() && Agree(ReadMany(n, SkipFunction, s), ReadMany(n - i, SkipFunction, c.State()))
    {
      var _ :- PassFunction(c);
    }
    r := Ok(());
  }

  method PassLocal(c: Cursor) returns (r: Result<()>)
    requires c.Valid()
    modifies c`offset
    ensures c.Valid() && Did(SkipLocal(old(c.State())), r, c.State())
  {
    hide SkipString, ReadU8, ReadOptU32;
    var _ :- PassString(c);
    var _ :- c.GetU8();
    var _ :- GetOptU32(c);
    var _ :- GetOptU32(c);
    r := Ok(());
  }

  method PassLocals(c: Cursor) returns (r: Result<()>)
    requires c.Valid()
    modifies c`offset, c`items
    ensures c.Valid() && Passed(ReadList(7, 0, SkipLocal, old(c.State())), r, c.State())
  {
    hide ReadCount, SkipLocal;
    var n :- c.GetCount(7, 0);
    ghost var s := c.State();
    for i := 0 to n
      invariant c.Valid() && Agree(ReadMany(n, SkipLocal, s), ReadMany(n - i, SkipLocal, c.State()))
    {
      var _ :- PassLocal(c);
    }
    r := Ok(());
  }

  method PassLines(c: Cursor) returns (r: Result<()>)
    requires c.Valid()
    modifies c`offset, c`items
    ensures c.Valid() && Did(SkipLines(old(c.State())), r, c.State())
  {
    hide ReadCount, ReadExact;
    var n :- c.GetCount(8, 0);
    var _ :- c.GetExact(8 * n);
    r := Ok(());
  }

  /** `skip_debug_info`, after its flag. */
  method PassDebug(c: Cursor) returns (r: Result<()>)
    requires c.Valid()
    modifies c`offset, c`items
    ensures c.Valid() && Did(SkipDebug(old(c.State())), r, c.State())
  {
    hide ReadU8, SkipString, SkipLines, ReadList;
    var present :- GetFlag(c, DebugFlag);
    if present {
      var _ :- PassString(c);
    }
    var _ :- PassLines(c);
    var _ :- PassFunctions(c);
    var _ :- PassLocals(c);
    r := Ok(());
  }

  // ---------------------------------------------------------------- callables and declarations

  method GetSlimTarget(c: Cursor) returns (r: Result<Target>)
    requires c.Valid()
    modifies c`offset
    ensures c.Valid() && Did(SlimTarget(old(c.State())), r, c.State())
  {
    hide ReadU8, ReadU32;
    var tag :- c.GetU8();
    var id :- c.GetU32();
    if tag == 0 {
      r := Ok(Script(id));
    } else if tag == 1 {
      r := if id < 0x1_0000 then Ok(Host(id)) else Err(LengthTooLarge(id));
    } else {
      r := Err(InvalidValueType(tag));
    }
  }

  method GetSlimPrototype(c: Cursor) returns (r: Result<Prototype>)
    requires c.Valid()
    modifies c`offset, c`items
    ensures c.Valid() && Did(SlimPrototype(old(c.State())), r, c.State())
  {
    hide ReadKind, SlimTarget, ReadU8, ReadFrameLocals, SlimLayout;
    var kind :- GetKind(c);
    var target :- GetSlimTarget(c);
    var arity :- c.GetU8();
    var locals :- c.GetFrameLocals();
    r := GetSlimLayout(c, Prototype(kind, target, arity, locals, [], [], [], [], None, None));
  }

  method GetSlimLayout(c: Cursor, p: Prototype) returns (r: Result<Prototype>)
    requires c.Valid()
    modifies c`offset, c`items
    ensures c.Valid() && Did(SlimLayout(p, old(c.State())), r, c.State())
  {
    hide ReadSlots, ReadModes, ReadSelf, SkipOptSchema;
    var params :- GetSlots(c);
    var sources :- GetSlots(c);
    var captures :- GetSlots(c);
    var modes :- GetModes(c);
    var self :- GetSelf(c);
    var _ :- PassOptSchema(c);
    r := Ok(p.(params := params, sources := sources, captures := captures, modes := modes, self := self, schema := None));
  }

  method GetSlimPrototypes(c: Cursor) returns (r: Result<seq<Prototype>>)
    requires c.Valid()
    modifies c`offset, c`items
    ensures c.Valid() && Did(ReadList(29, 0, SlimPrototype, old(c.State())), r, c.State())
  {
    hide ReadCount, PutCount, SlimPrototype;
    var n :- c.GetCount(29, 0);
    ghost var sxs := c.State();
    var xs: seq<Prototype> := [];
    AheadNone(ReadMany(n, SlimPrototype, sxs));
    for i := 0 to n
      invariant c.Valid() && ReadMany(n, SlimPrototype, sxs) == Ahead(xs, ReadMany(n - i, SlimPrototype, c.State()))
    {
      var x :- GetSlimPrototype(c);
      AheadOne(xs, x, ReadMany(n - i - 1, SlimPrototype, c.State()));
      xs := xs + [x];
    }
    AheadAll(xs, c.State());
    r := Ok(xs);
  }

  method GetSlimCallables(c: Cursor) returns (r: Result<Callables>)
    requires c.Valid()
    modifies c`offset, c`items
    ensures c.Valid() && Did(SlimCallables(old(c.State())), r, c.State())
  {
    hide ReadList, ReadScriptFunction, SlimPrototype, ReadRegion, ReadBinding, ReadExport;
    var functions :- GetScriptFunctions(c);
    var prototypes :- GetSlimPrototypes(c);
    var regions :- GetRegions(c);
    var bindings :- GetBindings(c);
    var exports :- GetExports(c);
    r := Ok(Callables(functions, prototypes, regions, bindings, exports));
  }

  method PassDecl(c: Cursor, seen: set<Str>) returns (r: Result<Str>)
    requires c.Valid()
    modifies c`offset, c`items
    ensures c.Valid() && Did(SkipDecl(seen, old(c.State())), r, c.State())
  {
    hide ReadString, ReadCount, ReadUnique, SkipSchema;
    var x :- c.GetString();
    if x in seen {
      return Err(InvalidValueType(0));
    }
    var n :- c.GetCount(1, 0);
    var _ :- GetTypeParams(c, n);
    var _ :- PassSchema(c, 0);
    r := Ok(x);
  }

  /** `skip_named_struct_decls`. */
  method PassDecls(c: Cursor) returns (r: Result<()>)
    requires c.Valid()
    modifies c`offset, c`items
    ensures c.Valid() && Did(SkipDeclList(old(c.State())), r, c.State())
  {
    hide ReadCount, SkipDecl;
    var n :- c.GetCount(1, 0);
    ghost var s := c.State();
    var seen: set<Str> := {};
    for i := 0 to n
      invariant c.Valid() && SkipDecls(n, {}, s) == SkipDecls(n - i, seen, c.State())
    {
      var x :- PassDecl(c, seen);
      seen := seen + {x};
    }
    r := Ok(());
  }

  // ---------------------------------------------------------------- payload

  method GetSlimMeta(c: Cursor, v: Version) returns (r: Result<SlimMeta>)
    requires c.Valid()
    modifies c`offset, c`items
    ensures c.Valid() && Did(ReadSlimMeta(v, old(c.State())), r, c.State())
  {
    hide ReadU8, SlimTypeMap, SkipDebug, SlimCallables, SkipDeclList;
    var mapped :- GetFlag(c, TypeMapFlag);
    var locals: Option<nat> := None;
    if mapped {
      var n :- GetSlimTypeMap(c);
      locals := Some(n);
    }
    var debugged :- GetFlag(c, DebugFlag);
    if debugged {
      var _ :- PassDebug(c);
    }
    var callables :- GetSlimCallables(c);
    if v == 13 {
      var _ :- PassDecls(c);
    }
    r := Ok(SlimMeta(locals, callables));
  }

  method GetSlim(c: Cursor, v: Version) returns (r: Result<SlimProgram>)
    requires c.Valid()
    modifies c`offset, c`items
    ensures c.Valid() && Did(ReadSlim(v, old(c.State())), r, c.State())
  {
    hide ReadList, ReadBlob, SlimImports, ReadSlimMeta, SlimLocals;
    var constants :- GetConstantPool(c);
    var code :- c.GetBlob();
    if v == 11 && Bytecode.CALL_SCRIPT in code {
      return Err(UnsupportedVersion(11));
    }
    var imports :- GetSlimImports(c, v);
    var m :- GetSlimMeta(c, v);
    r := Ok(SlimProgram(constants, code, SlimLocals(code, m), imports, m.callables));
  }

  /** `validate_call_script_operands`. */
  method CheckCallOperands(code: seq<u8>, prototypes: seq<Prototype>) returns (r: Result<()>)
    ensures r == CheckCalls(code, prototypes, 0)
  {
    var ip := 0;
    while ip < |code|
      invariant CheckCalls(code, prototypes, 0) == CheckCalls(code, prototypes, ip)
      decreases |code| - ip
    {
      var opcode := code[ip];
      if !Bytecode.Opcode(opcode) {
        ip := ip + 1;
        continue;
      }
      var end := ip + 1 + Bytecode.OperandLen(opcode);
      if end > |code| {
        return Err(TruncatedOperand(opcode, Bytecode.OperandLen(opcode)));
      }
      if opcode == Bytecode.CALL_SCRIPT {
        var id, argc := Bytecode.Word(code, ip + 1), code[ip + 5];
        if id >= |prototypes| || !prototypes[id].target.Script? {
          return Err(InvalidCallScriptTarget(id));
        }
        if argc != prototypes[id].arity {
          return Err(InvalidCallScriptArity(id, prototypes[id].arity, argc));
        }
      }
      ip := end;
    }
    r := Ok(());
  }

  /** The freestanding `decode_program`: exactly its decoding function, errors included. */
  method DecodeSlim(bytes: seq<u8>) returns (r: Result<SlimProgram>)
    ensures r == SlimDecode(bytes)
  {
    hide ReadHeader, ReadSlim, CheckCalls;
    if |bytes| > MAX_PAYLOAD {
      return Err(LengthTooLarge(|bytes|));
    }
    var c := new Cursor.Slim(bytes);
    var v :- GetHeader(c);
    var p :- GetSlim(c, v);
    if c.offset != |c.bytes| {
      return Err(TrailingBytes);
    }
    var _ :- CheckCallOperands(p.code, p.callables.prototypes);
    r := Ok(p);
  }
}
