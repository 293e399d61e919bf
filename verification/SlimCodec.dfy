/** Decoder refinement. */
module SlimCodec {
  import opened Bytes
  import opened Seqs
  import opened Wire
  import opened Lists
  import opened Programs
  import opened Sections
  import opened CallableSections
  import opened Payload
  import opened Ledger
  import opened SlimDecoder
  import opened SlimSections
  import opened Canonical
  import Bytecode
  import Codec
  import Constants

  // ---------------------------------------------------------------- callables

  function SlimTarget(s: Cur): Read<Target> {
    var (tag, s) :- ReadU8(s);
    var (id, s) :- ReadU32(s);
    if tag == 0 then Got(Script(id), s)
    else if tag == 1 then if id < 0x1_0000 then Got(Host(id), s) else Fail(LengthTooLarge(id))
    else Fail(InvalidValueType(tag))
  }

  function NoSchema(p: Prototype): Prototype { p.(schema := None) }

  function SlimPrototype(s: Cur): Read<Prototype> {
    var (kind, s) :- ReadKind(s);
    var (target, s) :- SlimTarget(s);
    var (arity, s) :- ReadU8(s);
    var (locals, s) :- ReadFrameLocals(s);
    SlimLayout(Prototype(kind, target, arity, locals, [], [], [], [], None, None), s)
  }

  function SlimLayout(p: Prototype, s: Cur): Read<Prototype> {
    var (params, s) :- ReadSlots(s);
    var (sources, s) :- ReadSlots(s);
    var (captures, s) :- ReadSlots(s);
    var (modes, s) :- ReadModes(s);
    var (self, s) :- ReadSelf(s);
    var (_, s) :- SkipOptSchema(s);
    Got(p.(params := params, sources := sources, captures := captures, modes := modes, self := self, schema := None), s)
  }

  function SlimCallables(s: Cur): Read<Callables> {
    var (functions, s) :- ReadList(8, 0, ReadScriptFunction, s);
    var (prototypes, s) :- ReadList(29, 0, SlimPrototype, s);
    var (regions, s) :- ReadList(9, 0, ReadRegion, s);
    var (bindings, s) :- ReadList(6, 0, ReadBinding, s);
    var (exports, s) :- ReadList(6, 0, ReadExport, s);
    Got(Callables(functions, prototypes, regions, bindings, exports), s)
  }

  function SlimOf(c: Callables): Callables { c.(prototypes := Mapped(NoSchema, c.prototypes)) }

  lemma SkipPutOptSchema(o: Option<Schemas.TypeSchema>, s: Cur)
    requires FitsOptSchema(o)
    ensures SkipOptSchema(PutOptSchema(o, s)) == Got((), s)
  {
    hide SkipSchema, Schemas.PutSchema;
    if o.Some? {
      ReadPutU8(1, PutTop(o.value, s));
      SkipPutSchema(0, o.value, s);
    } else {
      ReadPutU8(0, s);
    }
  }

  lemma LayoutFollows(p: Prototype, s: Cur)
    requires p.frameLocals <= MAX_FRAME_LOCALS && ReadLayout(p, s).Got?
    ensures SlimLayout(p, s) == Got(NoSchema(ReadLayout(p, s).v), ReadLayout(p, s).s)
  {
    hide ReadSlots, ReadModes, ReadSelf, ReadOptSchema, SkipOptSchema;
    var r := ReadLayout(p, s);
    SkipPutOptSchema(r.v.schema, r.s);
  }

  /** Where the full reader gets a prototype, the freestanding one gets it without its schema. */
  lemma PrototypeFollows(s: Cur)
    requires ReadPrototype(s).Got?
    ensures SlimPrototype(s) == Got(NoSchema(ReadPrototype(s).v), ReadPrototype(s).s)
  {
    hide ReadFrameLocals, ReadLayout, SlimLayout, ReadU8, ReadU32;
    var k := ReadKind(s);
    var t := ReadTarget(k.s);
    var a := ReadU8(t.s);
    var l := ReadFrameLocals(a.s);
    LayoutFollows(Prototype(k.v, t.v, a.v, l.v, [], [], [], [], None, None), l.s);
  }

  lemma PrototypeMirrors()
    ensures Mirrors(SlimPrototype, PutPrototype, FitsPrototype, NoSchema)
  {
    PrototypeLaws();
    PrototypeCosts();
    hide ReadPrototype, PutPrototype, SlimPrototype, FitsPrototype;
    Echo(ReadPrototype, PutPrototype, FitsPrototype, 29, PrototypeItems);
    forall p, s | FitsPrototype(p) ensures SlimPrototype(Shadow(PutPrototype(p, s))) == Got(NoSchema(p), Shadow(s)) {
      PrototypeFollows(Shadow(PutPrototype(p, s)));
    }
  }

  lemma PlainMirrors()
    ensures Mirrors(ReadScriptFunction, PutScriptFunction, Any, Same)
    ensures Mirrors(ReadRegion, PutRegion, Any, Same)
    ensures Mirrors(ReadBinding, PutBinding, Any, Same)
    ensures Mirrors(ReadExport, PutExport, FitsExport, Same)
  {
    ScriptFunctionLaws();
    RegionLaws();
    BindingLaws();
    ExportLaws();
    assert Costs(PutScriptFunction, Zero) && Costs(PutRegion, Zero) && Costs(PutBinding, Zero) && Costs(PutExport, Zero);
    hide ReadScriptFunction, PutScriptFunction, ReadRegion, PutRegion, ReadBinding, PutBinding, ReadExport, PutExport;
    Echo(ReadScriptFunction, PutScriptFunction, Any, 8, Zero);
    Echo(ReadRegion, PutRegion, Any, 9, Zero);
    Echo(ReadBinding, PutBinding, Any, 6, Zero);
    Echo(ReadExport, PutExport, FitsExport, 6, Zero);
  }

  lemma CallablesMirrors()
    ensures Mirrors(SlimCallables, PutCallables, FitsCallables, SlimOf)
  {
    ScriptFunctionLaws();
    PrototypeLaws();
    RegionLaws();
    BindingLaws();
    ExportLaws();
    PlainMirrors();
    PrototypeMirrors();
    hide ReadScriptFunction, PutScriptFunction, ReadRegion, PutRegion, ReadBinding, PutBinding, ReadExport, PutExport;
    hide SlimPrototype, ReadPrototype, PutPrototype, ReadList, PutList, Shadow;
    forall c, s | FitsCallables(c) ensures SlimCallables(Shadow(PutCallables(c, s))) == Got(SlimOf(c), Shadow(s)) {
      var t1 := PutList(c.exports, PutExport, s);
      var t2 := PutList(c.bindings, PutBinding, t1);
      var t3 := PutList(c.regions, PutRegion, t2);
      var t4 := PutList(c.prototypes, PutPrototype, t3);
      ListMirror(c.functions, 8, ReadScriptFunction, PutScriptFunction, Any, Same, t4);
      ListMirror(c.prototypes, 29, SlimPrototype, PutPrototype, FitsPrototype, NoSchema, t3);
      ListMirror(c.regions, 9, ReadRegion, PutRegion, Any, Same, t2);
      ListMirror(c.bindings, 6, ReadBinding, PutBinding, Any, Same, t1);
      ListMirror(c.exports, 6, ReadExport, PutExport, FitsExport, Same, s);
      MappedSame(c.functions);
      MappedSame(c.regions);
      MappedSame(c.bindings);
      MappedSame(c.exports);
    }
  }

  // ---------------------------------------------------------------- struct declarations

  /** A repeated name is seen before its parameters are read. */
  function SkipDecl(seen: set<Str>, s: Cur): Read<Str> {
    var (x, s) :- ReadString(s);
    if x in seen then Fail(InvalidValueType(0))
    else
      var (m, s) :- ReadCount(1, 0, s);
      var (_, s) :- ReadUnique(m, ReadString, Itself, {}, s);
      var (_, s) :- SkipTop(s);
      Got(x, s)
  }

  function SkipDecls(n: nat, seen: set<Str>, s: Cur): Read<()>
    decreases n
  {
    if n == 0 then Got((), s)
    else
      var (x, s) :- SkipDecl(seen, s);
      SkipDecls(n - 1, seen + {x}, s)
  }

  function SkipDeclList(s: Cur): Read<()> {
    var (n, s) :- ReadCount(1, 0, s);
    SkipDecls(n, {}, s)
  }

  lemma DeclFollows(seen: set<Str>, s: Cur)
    requires ReadDecl(s).Got? && ReadDecl(s).v.name !in seen
    ensures SkipDecl(seen, s) == Got(ReadDecl(s).v.name, ReadDecl(s).s)
  {
    var c := ReadCount(1, 0, ReadString(s).s);
    var p := ReadUnique(c.v, ReadString, Itself, {}, c.s);
    var r := ReadTop(p.s);
    hide ReadUnique, ReadString, ReadCount, SkipSchema, Schemas.ReadSchema;
    SkipPutSchema(0, r.v, r.s);
  }

  lemma {:induction false} DeclsFollow(n: nat, seen: set<Str>, s: Cur)
    requires ReadUnique(n, ReadDecl, DeclName, seen, s).Got?
    ensures SkipDecls(n, seen, s) == Got((), ReadUnique(n, ReadDecl, DeclName, seen, s).s)
    decreases n
  {
    hide ReadDecl, SkipDecl, ReadUnique, ReadMany, Distinct;
    UniqueStep(n, ReadDecl, DeclName, seen, s);
    if n != 0 {
      var r := ReadDecl(s);
      DeclFollows(seen, s);
      DeclsFollow(n - 1, seen + {r.v.name}, r.s);
    }
  }

  lemma DeclListMirrors()
    ensures Mirrors(SkipDeclList, PutDeclList, FitsDeclList, Nothing)
  {
    DeclListLaws();
    forall ds, s ensures PutDeclList(ds, s).b == s.b.(items := s.b.items + ListItems(DeclItems, ds)) {
      DeclCosts();
      ListCosts(ds, PutDecl, DeclItems, s);
    }
    hide ReadDeclList, PutDeclList, FitsDeclList, SkipDeclList;
    Echo(ReadDeclList, PutDeclList, FitsDeclList, 4, ds => ListItems(DeclItems, ds));
    forall ds, s | FitsDeclList(ds) ensures SkipDeclList(Shadow(PutDeclList(ds, s))) == Got((), Shadow(s)) {
      DeclListFollows(Shadow(PutDeclList(ds, s)));
    }
  }

  lemma DeclListFollows(s: Cur)
    requires ReadDeclList(s).Got?
    ensures SkipDeclList(s) == Got((), ReadDeclList(s).s)
  {
    var c := ReadCount(1, 0, s);
    DeclsFollow(c.v, {}, c.s);
  }

  // ---------------------------------------------------------------- whole payload

  /** Constants keep every map entry in wire order; schemas, type map, debug information and declarations are gone. */
  datatype SlimProgram = SlimProgram(constants: seq<Constants.Value>, code: seq<u8>, localCount: nat, imports: seq<HostImport>, callables: Callables)

  datatype SlimMeta = SlimMeta(locals: Option<nat>, callables: Callables)

  function SlimMetaOf(c: Content): SlimMeta { SlimMeta(Lift(LocalsOf, c.typeMap), SlimOf(c.callables)) }

  function ReadSlimMeta(v: Version, s: Cur): Read<SlimMeta> {
    var (locals, s) :- ReadOption(TypeMapFlag, SlimTypeMap, s);
    var (_, s) :- ReadOption(DebugFlag, SkipDebug, s);
    var (callables, s) :- SlimCallables(s);
    if v == 13 then
      var (_, s) :- SkipDeclList(s);
      Got(SlimMeta(locals, callables), s)
    else Got(SlimMeta(locals, callables), s)
  }

  /** The deferred check of direct script calls; an unknown opcode is stepped over as one byte. */
  function CheckCalls(code: seq<u8>, prototypes: seq<Prototype>, ip: nat): Result<()>
    decreases |code| - ip
  {
    if ip >= |code| then Ok(())
    else if !Bytecode.Opcode(code[ip]) then CheckCalls(code, prototypes, ip + 1)
    else
      var next := ip + 1 + Bytecode.OperandLen(code[ip]);
      if next > |code| then Err(TruncatedOperand(code[ip], Bytecode.OperandLen(code[ip])))
      else if code[ip] != Bytecode.CALL_SCRIPT then CheckCalls(code, prototypes, next)
      else
        var id := Bytecode.Word(code, ip + 1);
        if id >= |prototypes| || !prototypes[id].target.Script? then Err(InvalidCallScriptTarget(id))
        else if code[ip + 5] != prototypes[id].arity then Err(InvalidCallScriptArity(id, prototypes[id].arity, code[ip + 5]))
        else CheckCalls(code, prototypes, next)
  }

  /** The check's own sweep comes from `from` to `ip`; it does not stop at unknown opcodes. */
  predicate Passes(code: seq<u8>, from: nat, ip: nat)
    decreases |code| - from
  {
    from == ip || (from < |code| && Passes(code, from + 1 + if Bytecode.Opcode(code[from]) then Bytecode.OperandLen(code[from]) else 0, ip))
  }

  /** What is wrong with the instruction at `ip`: an operand cut short, or a script call of something that is not a script
      function with that many parameters. */
  function CallFault(code: seq<u8>, prototypes: seq<Prototype>, ip: nat): Option<WireError> {
    if ip >= |code| || !Bytecode.Opcode(code[ip]) then None
    else if ip + 1 + Bytecode.OperandLen(code[ip]) > |code| then Some(TruncatedOperand(code[ip], Bytecode.OperandLen(code[ip])))
    else if code[ip] != Bytecode.CALL_SCRIPT then None
    else
      var id := Bytecode.Word(code, ip + 1);
      if id >= |prototypes| || !prototypes[id].target.Script? then Some(InvalidCallScriptTarget(id))
      else if code[ip + 5] != prototypes[id].arity then Some(InvalidCallScriptArity(id, prototypes[id].arity, code[ip + 5]))
      else None
  }

  /** The check passes exactly when no position its sweep comes to is at fault; an error is that of the first such position. */
  lemma {:induction false} CheckCallsExact(code: seq<u8>, prototypes: seq<Prototype>, from: nat)
    ensures CheckCalls(code, prototypes, from).Ok? <==> forall ip: nat | Passes(code, from, ip) :: CallFault(code, prototypes, ip).None?
    ensures CheckCalls(code, prototypes, from).Err? ==>
              exists ip: nat :: Passes(code, from, ip) && CallFault(code, prototypes, ip) == Some(CheckCalls(code, prototypes, from).error)
                && forall k: nat | Passes(code, from, k) && k < ip :: CallFault(code, prototypes, k).None?
    decreases |code| - from
  {
    hide CallFault;
    CheckStep(code, prototypes, from);
    if from < |code| {
      var next := from + 1 + if Bytecode.Opcode(code[from]) then Bytecode.OperandLen(code[from]) else 0;
      forall k: nat | Passes(code, next, k) ensures next <= k { PassesUp(code, next, k); }
      if CallFault(code, prototypes, from).None? {
        CheckCallsExact(code, prototypes, next);
        assert forall k: nat :: Passes(code, from, k) <==> k == from || Passes(code, next, k);
      } else {
        forall k: nat | Passes(code, from, k) ensures from <= k { PassesUp(code, from, k); }
        assert Passes(code, from, from);
      }
    }
  }

  lemma {:induction false} PassesUp(code: seq<u8>, from: nat, ip: nat)
    requires Passes(code, from, ip)
    ensures from <= ip
    decreases |code| - from
  {
    if from != ip {
      PassesUp(code, from + 1 + if Bytecode.Opcode(code[from]) then Bytecode.OperandLen(code[from]) else 0, ip);
    }
  }

  lemma CheckStep(code: seq<u8>, prototypes: seq<Prototype>, ip: nat)
    ensures var f := CallFault(code, prototypes, ip);
            CheckCalls(code, prototypes, ip) ==
              if f.Some? then Err(f.value)
              else if ip >= |code| then Ok(())
              else CheckCalls(code, prototypes, ip + 1 + if Bytecode.Opcode(code[ip]) then Bytecode.OperandLen(code[ip]) else 0)
    ensures ip >= |code| ==> CallFault(code, prototypes, ip).None?
  {
  }

  function SlimLocals(code: seq<u8>, m: SlimMeta): nat {
    var n := Bytecode.InferLocals(code);
    var n := if m.locals.Some? then Max(n, m.locals.value) else n;
    Max(Max(n, Codec.MaxSlot(Codec.BindingSlot, m.callables.bindings)),
                 Codec.MaxSlot(Codec.ExportSlot, m.callables.exports))
  }

  function ReadSlim(v: Version, s: Cur): Read<SlimProgram> {
    var (constants, s) :- ReadList(1, 0, ReadConst, s);
    var (code, s) :- ReadBlob(s);
    if v == 11 && Bytecode.CALL_SCRIPT in code then Fail(UnsupportedVersion(11))
    else
      var (imports, s) :- SlimImports(v, s);
      var (m, s) :- ReadSlimMeta(v, s);
      Got(SlimProgram(constants, code, SlimLocals(code, m), imports, m.callables), s)
  }

  /** `decode_program` of the freestanding virtual machine. */
  function SlimDecode(bytes: seq<u8>): Result<SlimProgram> {
    if |bytes| > MAX_PAYLOAD then Err(LengthTooLarge(|bytes|))
    else
      match ReadHeader(Cur(bytes, Budget(MAX_ITEMS, 0, 0, 0)))
      case Fail(e) => Err(e)
      case Got(v, s) =>
        match ReadSlim(v, s)
        case Fail(e) => Err(e)
        case Got(p, t) =>
          if t.rest != [] then Err(TrailingBytes)
          else
            match CheckCalls(p.code, p.callables.prototypes, 0)
            case Err(e) => Err(e)
            case Ok(_) => Ok(p)
  }

  // ---------------------------------------------------------------- refinement

  /** Both readers succeed and stop at the same byte with the same items left. */
  predicate InStep<T, U>(full: Read<T>, slim: Read<U>) { full.Got? && slim.Got? && slim.s == Shadow(full.s) }

  lemma MetaInStep(v: Version, c: Content, s: Cur)
    requires FitsContent(v, c)
    ensures ReadSlimMeta(v, Shadow(PutMeta(v, c, s))) == Got(SlimMetaOf(c), Shadow(s))
  {
    hide ReadOption, PutOption, SlimTypeMap, PutTypeMap, SkipDebug, PutDebug, SlimCallables, PutCallables, SkipDeclList, PutDeclList, Shadow;
    TypeMapMirrors();
    DebugMirrors();
    CallablesMirrors();
    DeclListMirrors();
    var t1 := if v == 13 then PutDeclList(c.decls, s) else s;
    var t2 := PutCallables(c.callables, t1);
    var t3 := PutOption(c.debug, PutDebug, t2);
    OptionMirror(c.typeMap, TypeMapFlag, SlimTypeMap, PutTypeMap, FitsTypeMap, LocalsOf, t3);
    OptionMirror(c.debug, DebugFlag, SkipDebug, PutDebug, FitsDebug, Nothing, t2);
  }

  lemma ConstantsInStep(vs: seq<Constants.Value>, s: Cur)
    requires FitsList(vs, FitsConst)
    ensures ReadList(1, 0, ReadConst, Shadow(PutList(vs, PutConst, s))) == Got(vs, Shadow(s))
  {
    ConstLaws();
    TreeCosts();
    hide ReadConst, PutConst, ReadList, PutList;
    Echo(ReadConst, PutConst, FitsConst, 1, ConstItems);
    ListMirror(vs, 1, ReadConst, PutConst, FitsConst, Same, s);
    MappedSame(vs);
  }

  /** What the freestanding decoder keeps of a payload's content. */
  function SlimView(c: Content): SlimProgram {
    SlimProgram(c.constants, c.code, SlimLocals(c.code, SlimMetaOf(c)), Mapped(Item, c.entries), SlimOf(c.callables))
  }

  lemma ContentInStep(v: Version, c: Content, s: Cur)
    requires FitsContent(v, c)
    ensures ReadSlim(v, Shadow(PutContent(v, c, s))) == Got(SlimView(c), Shadow(s))
  {
    hide ReadList, PutList, ReadBlob, PutBlob, SlimImports, PutImports, ReadSlimMeta, PutMeta, Shadow, SlimLocals;
    var t1 := PutMeta(v, c, s);
    var t2 := PutImports(v, c.entries, t1);
    ConstantsInStep(c.constants, PutBlob(c.code, t2));
    ReadPutBlob(c.code, Shadow(t2));
    Shadows();
    ImportsMirror(v, c.entries, t1);
    MetaInStep(v, c, s);
  }

  /** Section by section up to the imports: the same bytes consumed and the same items debited. */
  lemma HeadInStep(v: Version, c: Content, s: Cur)
    requires FitsContent(v, c)
    ensures InStep(ReadList(1, 0, ReadConst, PutList(c.constants, PutConst, s)),
                   ReadList(1, 0, ReadConst, Shadow(PutList(c.constants, PutConst, s))))
    ensures InStep(ReadBlob(PutBlob(c.code, s)), ReadBlob(Shadow(PutBlob(c.code, s))))
    ensures InStep(ReadImports(v, PutImports(v, c.entries, s)), SlimImports(v, Shadow(PutImports(v, c.entries, s))))
  {
    hide ReadList, PutList, ReadBlob, PutBlob, ReadImports, SlimImports, PutImports, Shadow, FitsImports;
    ConstantsInStep(c.constants, s);
    ConstLaws();
    ListComplete(c.constants, 1, 0, ReadConst, PutConst, FitsConst, s);
    ReadPutBlob(c.code, s);
    ReadPutBlob(c.code, Shadow(s));
    Shadows();
    ReadPutImports(v, c.entries, s);
    ImportsMirror(v, c.entries, s);
  }

  /** Section by section after the imports. */
  lemma TailInStep(v: Version, c: Content, s: Cur)
    requires FitsContent(v, c)
    ensures InStep(ReadOption(TypeMapFlag, ReadTypeMap, PutOption(c.typeMap, PutTypeMap, s)),
                   ReadOption(TypeMapFlag, SlimTypeMap, Shadow(PutOption(c.typeMap, PutTypeMap, s))))
    ensures InStep(ReadOption(DebugFlag, ReadDebug, PutOption(c.debug, PutDebug, s)),
                   ReadOption(DebugFlag, SkipDebug, Shadow(PutOption(c.debug, PutDebug, s))))
    ensures InStep(ReadCallables(PutCallables(c.callables, s)), SlimCallables(Shadow(PutCallables(c.callables, s))))
    ensures v == 13 ==> InStep(ReadDeclList(PutDeclList(c.decls, s)), SkipDeclList(Shadow(PutDeclList(c.decls, s))))
  {
    hide ReadOption, PutOption, ReadTypeMap, SlimTypeMap, PutTypeMap, ReadDebug, SkipDebug, PutDebug;
    hide ReadCallables, SlimCallables, PutCallables, ReadDeclList, SkipDeclList, PutDeclList, Shadow, FitsImports;
    TypeMapMirrors();
    TypeMapLaws();
    OptionMirror(c.typeMap, TypeMapFlag, SlimTypeMap, PutTypeMap, FitsTypeMap, LocalsOf, s);
    OptionComplete(c.typeMap, TypeMapFlag, ReadTypeMap, PutTypeMap, FitsTypeMap, s);
    DebugMirrors();
    DebugLaws();
    OptionMirror(c.debug, DebugFlag, SkipDebug, PutDebug, FitsDebug, Nothing, s);
    OptionComplete(c.debug, DebugFlag, ReadDebug, PutDebug, FitsDebug, s);
    CallablesMirrors();
    CallablesLaws();
    DeclListMirrors();
    DeclListLaws();
  }

  lemma HeaderInStep(bytes: seq<u8>)
    requires ReadHeader(Cur(bytes, FullBudget)).Got?
    ensures InStep(ReadHeader(Cur(bytes, FullBudget)), ReadHeader(Cur(bytes, Budget(MAX_ITEMS, 0, 0, 0))))
    ensures ReadHeader(Cur(bytes, FullBudget)).v == ReadHeader(Cur(bytes, Budget(MAX_ITEMS, 0, 0, 0))).v
  {
    var r := ReadHeader(Cur(bytes, FullBudget));
    ReadPutHeader(r.v, Shadow(r.s));
    hide ReadHeader;
  }

  lemma SlimDecodes(bytes: seq<u8>)
    requires Codec.DecodeContent(bytes).Ok?
    ensures var c := Codec.DecodeContent(bytes).value.content;
            SlimDecode(bytes) == match CheckCalls(c.code, SlimOf(c.callables).prototypes, 0)
                                 case Err(e) => Err(e)
                                 case Ok(_) => Ok(SlimView(c))
  {
    hide ReadHeader, PutHeader, ReadSlim, ReadContent, FitsContent, PutContent, CheckCalls, SlimLocals, Mapped;
    var r := ReadHeader(Cur(bytes, FullBudget));
    HeaderInStep(bytes);
    var c := ReadContent(r.v, r.s);
    ContentInStep(r.v, c.v, c.s);
  }

  /** A slim program is a full one without schemas, with duplicate map keys still in its constants. */
  predicate Slims(q: SlimProgram, p: Program) {
    && q.code == p.code && q.localCount == p.localCount && q.imports == p.imports
    && q.callables == SlimOf(p.callables)
    && Mapped(Constants.CanonValue, q.constants) == p.constants
  }

  lemma ViewSlims(v: Version, c: Content)
    ensures Slims(SlimView(c), Codec.ToProgram(v, c))
  {
    var ps := c.callables.prototypes;
    assert Mapped(NoSchema, Mapped(CanonPrototype, ps)) == Mapped(NoSchema, ps);
  }

  /**
   * Whatever the full decoder accepts, the freestanding one accepts with the same code, imports, callables, locals and
   * constants, unless its own check of direct script calls refuses them.
   */
  lemma SlimRefines(bytes: seq<u8>)
    requires Codec.Decode(bytes).Ok?
    ensures var p := Codec.Decode(bytes).value;
            match CheckCalls(p.code, p.callables.prototypes, 0)
            case Err(e) => SlimDecode(bytes) == Err(e)
            case Ok(_) => SlimDecode(bytes).Ok? && Slims(SlimDecode(bytes).value, p)
  {
    hide Codec.DecodeContent, SlimDecode, SlimView, CheckCalls;
    SlimDecodes(bytes);
    var d := Codec.DecodeContent(bytes).value;
    ViewSlims(d.version, d.content);
    SchemaBlind(d.content.code, SlimOf(d.content.callables).prototypes,
                Codec.ToProgram(d.version, d.content).callables.prototypes, 0);
  }

  /** Which fully decoded payloads the freestanding decoder takes: those where no position that its sweep over the code comes
      to has a cut operand or a wrong script call. */
  lemma SlimTakesExactly(bytes: seq<u8>)
    requires Codec.Decode(bytes).Ok?
    ensures var p := Codec.Decode(bytes).value;
            SlimDecode(bytes).Ok? <==> forall ip: nat | Passes(p.code, 0, ip) :: CallFault(p.code, p.callables.prototypes, ip).None?
  {
    hide Codec.Decode, SlimDecode, Slims, CheckCalls, CallFault, Passes;
    SlimRefines(bytes);
    CheckCallsExact(Codec.Decode(bytes).value.code, Codec.Decode(bytes).value.callables.prototypes, 0);
  }

  /** The check looks at targets and arities only. */
  lemma {:induction false} SchemaBlind(code: seq<u8>, ps: seq<Prototype>, qs: seq<Prototype>, ip: nat)
    requires |ps| == |qs| && forall i | 0 <= i < |ps| :: ps[i].target == qs[i].target && ps[i].arity == qs[i].arity
    ensures CheckCalls(code, ps, ip) == CheckCalls(code, qs, ip)
    decreases |code| - ip
  {
    if ip < |code| {
      SchemaBlind(code, ps, qs, ip + 1);
      SchemaBlind(code, ps, qs, ip + 1 + Bytecode.OperandLen(code[ip]));
    }
  }
}
